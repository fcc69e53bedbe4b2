/** Records in a file, as the standards that define them write them down: a list of fields
    one after the other, numbers with their low byte first. */
module Records {
  import opened Bytes

  datatype Field = Raw(bytes: seq<byte>) | Half(v: int) | Word(v: int) {
    predicate Valid() {
      (Half? ==> 0 <= v < 0x1_0000) && (Word? ==> 0 <= v < 0x1_0000_0000)
    }

    function Size(): nat { if Raw? then |bytes| else if Half? then 2 else 4 }

    function Encoded(): (s: seq<byte>)
      requires Valid()
      ensures |s| == Size()
    {
      if Raw? then bytes
      else if Half? then [v % 256, v / 256]
      else [v % 256, v / 0x100 % 256, v / 0x1_0000 % 256, v / 0x100_0000]
    }
  }

  predicate AllValid(fs: seq<Field>) { forall i | 0 <= i < |fs| :: fs[i].Valid() }

  /** Where field `i` starts. */
  function Offset(fs: seq<Field>, i: nat): nat
    requires i <= |fs|
  {
    if i == 0 then 0 else Offset(fs, i - 1) + fs[i - 1].Size()
  }

  /** The record up to field `i`. */
  function Encode(fs: seq<Field>, i: nat): (s: seq<byte>)
    requires i <= |fs| && AllValid(fs)
    ensures |s| == Offset(fs, i)
  {
    if i == 0 then [] else Encode(fs, i - 1) + fs[i - 1].Encoded()
  }

  /** The file holds the record at `at`. */
  ghost predicate Holds(file: seq<byte>, at: nat, fs: seq<Field>) {
    && AllValid(fs) && at + Offset(fs, |fs|) <= |file|
    && file[at..at + Offset(fs, |fs|)] == Encode(fs, |fs|)
  }

  lemma SliceOfSlice(s: seq<byte>, at: nat, n: nat, o: nat, k: nat)
    requires at + n <= |s| && o + k <= n
    ensures s[at..at + n][o..o + k] == s[at + o..at + o + k]
  {
    var l, r := s[at..at + n][o..o + k], s[at + o..at + o + k];
    forall i | 0 <= i < k ensures l[i] == r[i] {
      assert l[i] == s[at..at + n][o + i] == s[at + o + i];
    }
  }

  lemma SliceOfSum(a: seq<byte>, b: seq<byte>, o: nat, k: nat)
    requires o + k <= |a|
    ensures (a + b)[o..o + k] == a[o..o + k]
    ensures (a + b)[|a|..|a| + |b|] == b
  {
  }

  lemma {:induction false} FieldInside(fs: seq<Field>, i: nat, k: nat)
    requires i < k <= |fs| && AllValid(fs)
    ensures Offset(fs, i) + fs[i].Size() <= Offset(fs, k)
    ensures Encode(fs, k)[Offset(fs, i)..Offset(fs, i) + fs[i].Size()] == fs[i].Encoded()
  {
    var short, last := Encode(fs, k - 1), fs[k - 1].Encoded();
    assert Encode(fs, k) == short + last;
    if i + 1 < k {
      FieldInside(fs, i, k - 1);
      SliceOfSum(short, last, Offset(fs, i), fs[i].Size());
    } else {
      SliceOfSum(short, last, 0, 0);
    }
  }

  /** A field can be found in the file where its offset says. */
  lemma FieldInFile(file: seq<byte>, at: nat, fs: seq<Field>, i: nat)
    requires Holds(file, at, fs) && i < |fs|
    ensures at + Offset(fs, i) + fs[i].Size() <= |file|
    ensures file[at + Offset(fs, i)..at + Offset(fs, i) + fs[i].Size()] == fs[i].Encoded()
  {
    hide Encode, Offset;
    FieldInside(fs, i, |fs|);
    SliceOfSlice(file, at, Offset(fs, |fs|), Offset(fs, i), fs[i].Size());
  }

  lemma HalfInFile(file: seq<byte>, at: nat, fs: seq<Field>, i: nat)
    requires Holds(file, at, fs) && i < |fs| && fs[i].Half?
    ensures at + Offset(fs, i) + 2 <= |file| && U16(file, at + Offset(fs, i)) == fs[i].v
  {
    FieldInFile(file, at, fs, i);
    var o := at + Offset(fs, i);
    var here := file[o..o + 2];
    assert fs[i].Valid() && here == [fs[i].v % 256, fs[i].v / 256];
    assert file[o] == here[0] && file[o + 1] == here[1];
  }

  lemma FourBytes(v: int)
    requires 0 <= v < 0x1_0000_0000
    ensures v == (v % 256 + 256 * (v / 0x100 % 256)) + 0x1_0000 * (v / 0x1_0000 % 256 + 256 * (v / 0x100_0000))
  {
    var h := v / 0x1_0000;
    assert v == h * 0x1_0000 + v % 0x1_0000 && h == h / 256 * 256 + h % 256 && v / 0x100_0000 == h / 256;
    var l := v / 0x100;
    assert v == l * 0x100 + v % 0x100 && l == h * 256 + l % 256;
  }

  lemma WordInFile(file: seq<byte>, at: nat, fs: seq<Field>, i: nat)
    requires Holds(file, at, fs) && i < |fs| && fs[i].Word?
    ensures at + Offset(fs, i) + 4 <= |file| && U32(file, at + Offset(fs, i)) == fs[i].v
  {
    FieldInFile(file, at, fs, i);
    var o, v := at + Offset(fs, i), fs[i].v;
    var here := file[o..o + 4];
    assert fs[i].Valid() && here == [v % 256, v / 0x100 % 256, v / 0x1_0000 % 256, v / 0x100_0000];
    assert file[o] == here[0] && file[o + 1] == here[1] && file[o + 2] == here[2] && file[o + 3] == here[3];
    FourBytes(v);
  }
}
