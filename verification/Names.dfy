/** 8.3 names: splitting a path, and finding its entry in the root directory. */
module Names {
  import opened Words
  import opened Fat

  const DOT: Byte := 46
  const SLASH: Byte := 47
  const SPACE: Byte := 32
  const DELETED: Byte := 0xe5
  const LONG_NAME: Byte := 0xf
  const NOT_FOUND: U32 := 0xffff_ffff

  /** A C string: some byte is zero. */
  ghost predicate Terminated(path: seq<Byte>) {
    exists k :: 0 <= k < |path| && path[k] == 0
  }

  /** The characters of a C string. */
  function Text(path: seq<Byte>): (t: seq<Byte>)
    ensures |t| <= |path| && t == path[..|t|] && (|t| < |path| ==> path[|t|] == 0)
    ensures forall k :: 0 <= k < |t| ==> t[k] != 0
  {
    if path == [] || path[0] == 0 then [] else [path[0]] + Text(path[1..])
  }

  /** Position of the first dot, or the length. */
  function Dot(t: seq<Byte>): (k: nat)
    ensures k <= |t| && (k < |t| ==> t[k] == DOT)
    ensures forall j :: 0 <= j < k ==> t[j] != DOT
  {
    if t == [] || t[0] == DOT then 0 else 1 + Dot(t[1..])
  }

  /** Name of at most eight characters, and after a dot an extension of at most three; no slash anywhere. */
  predicate IsName(t: seq<Byte>) {
    Dot(t) <= 8 && |t| <= Dot(t) + 4 && forall k :: 0 <= k < |t| ==> t[k] != SLASH
  }

  function Base(t: seq<Byte>): seq<Byte> { t[..Dot(t)] }

  function Extension(t: seq<Byte>): seq<Byte> { if Dot(t) < |t| then t[Dot(t) + 1..] else [] }

  /** The name padded with spaces to n characters. */
  function Pad(s: seq<Byte>, n: nat): seq<Byte> {
    seq<Byte>(n, k requires 0 <= k => if k < |s| then s[k] else SPACE)
  }

  lemma DotIs(t: seq<Byte>, k: nat)
    requires k <= |t| && (k < |t| ==> t[k] == DOT) && forall j :: 0 <= j < k ==> t[j] != DOT
    ensures Dot(t) == k
  {
    assert Dot(t) < |t| ==> t[Dot(t)] == DOT;
  }

  lemma PadMore(t: seq<Byte>, from: nat, i: nat, n: nat)
    requires from <= i < |t| && i - from < n
    ensures Pad(t[from..i], n)[i - from := t[i]] == Pad(t[from..i + 1], n)
  {
  }

  /** One loop of split_path: copy characters up to the end, a full part or, for the name, a dot; stop at a slash. */
  method TakePart(path: seq<Byte>, ghost t: seq<Byte>, from: nat, part: array<Byte>, untilDot: bool)
    returns (i: nat, slash: bool)
    requires t == Text(path) && from <= |t| < |path| && path[|t|] == 0 && part[..] == Pad([], part.Length)
    modifies part
    ensures from <= i <= |t| && i <= from + part.Length && part[..] == Pad(t[from..i], part.Length)
    ensures forall k :: from <= k < i ==> t[k] != SLASH && (untilDot ==> t[k] != DOT)
    ensures slash ==> i < |t| && t[i] == SLASH
    ensures !slash ==> i == |t| || i == from + part.Length || (untilDot && t[i] == DOT)
  {
    i := from;
    while i - from < part.Length && path[i] != 0 && !(untilDot && path[i] == DOT)
      invariant from <= i <= |t| && i <= from + part.Length && part[..] == Pad(t[from..i], part.Length)
      invariant forall k :: from <= k < i ==> t[k] != SLASH && (untilDot ==> t[k] != DOT)
    {
      if path[i] == SLASH {
        return i, true;
      }
      PadMore(t, from, i, part.Length);
      part[i - from] := path[i];
      i := i + 1;
    }
    slash := false;
  }

  /** split_path: name and ext, filled with spaces before, get the parts of the path. */
  method SplitPath(path: seq<Byte>, name: array<Byte>, ext: array<Byte>) returns (ok: bool)
    requires Terminated(path) && name.Length == 8 && ext.Length == 3 && name != ext
    requires name[..] == Pad([], 8) && ext[..] == Pad([], 3)
    modifies name, ext
    ensures ok <==> IsName(Text(path))
    ensures ok ==> name[..] == Pad(Base(Text(path)), 8) && ext[..] == Pad(Extension(Text(path)), 3)
  {
    hide Pad, IsName, Base, Extension, Text;
    ghost var t := Text(path);
    TextEnds(path);
    var i, slash := TakePart(path, t, 0, name, true);
    if slash {
      SlashIsNoName(t, i);
      return false;
    }
    if path[i] == DOT {
      var j;
      j, slash := TakePart(path, t, i + 1, ext, false);
      if slash {
        SlashIsNoName(t, j);
        return false;
      }
      NameAndExtension(t, i, j);
      i := j;
    } else {
      NameOnly(t, i);
      assert t[0..0] == [];
    }
    ok := path[i] == 0;
  }

  lemma SlashIsNoName(t: seq<Byte>, i: nat)
    requires i < |t| && t[i] == SLASH
    ensures !IsName(t)
  {
  }

  /** A text without a dot in its first i characters, stopped at its end or at a ninth character. */
  lemma NameOnly(t: seq<Byte>, i: nat)
    requires i <= |t| && i <= 8 && forall j :: 0 <= j < i ==> t[j] != DOT && t[j] != SLASH
    requires i == |t| || (i == 8 && t[i] != DOT)
    ensures IsName(t) <==> i == |t|
    ensures i == |t| ==> Base(t) == t[0..i] && Extension(t) == []
  {
  }

  /** A text with its first dot at i, taken up to j: to its end, or three characters after the dot. */
  lemma NameAndExtension(t: seq<Byte>, i: nat, j: nat)
    requires i < |t| && i <= 8 && t[i] == DOT && forall k :: 0 <= k < i ==> t[k] != DOT && t[k] != SLASH
    requires i + 1 <= j <= |t| && j <= i + 4 && (j == |t| || j == i + 4) && forall k :: i + 1 <= k < j ==> t[k] != SLASH
    ensures IsName(t) <==> j == |t|
    ensures j == |t| ==> Base(t) == t[0..i] && Extension(t) == t[i + 1..j]
  {
    DotIs(t, i);
  }

  lemma TextEnds(path: seq<Byte>)
    requires Terminated(path)
    ensures |Text(path)| < |path| && path[|Text(path)|] == 0
  {
    var k :| 0 <= k < |path| && path[k] == 0;
    assert k < |Text(path)| ==> Text(path)[k] == path[k];
  }

  // The root directory

  function EntryAt(d: Image, i: nat): nat { DirectoryStart(d) + DIR_ENTRY_SIZE * i }

  /** The bytes of an entry, when it lies inside the image. */
  function EntryName(d: Image, i: nat): seq<Byte> { seq<Byte>(8, k requires 0 <= k => ByteAt(d, EntryAt(d, i) + k)) }

  function EntryExt(d: Image, i: nat): seq<Byte> { seq<Byte>(3, k requires 0 <= k => ByteAt(d, EntryAt(d, i) + 8 + k)) }

  function EntryCluster(d: Image, i: nat): nat { U16At(d, EntryAt(d, i) + 26) }

  function EntrySize(d: Image, i: nat): U32 { U32At(d, EntryAt(d, i) + 28) }

  /** In use, and not part of a long file name. */
  predicate IsLive(d: Image, i: nat) {
    && ByteAt(d, EntryAt(d, i)) != 0 && ByteAt(d, EntryAt(d, i)) != DELETED
    && ByteAt(d, EntryAt(d, i) + 11) != LONG_NAME
  }

  predicate Matches(d: Image, i: nat, t: seq<Byte>) {
    IsLive(d, i) && EntryName(d, i) == Pad(Base(t), 8) && EntryExt(d, i) == Pad(Extension(t), 3)
  }

  /** The entry a path names: the first live one whose padded name is the path's. */
  ghost predicate Names(d: Image, t: seq<Byte>, i: nat) {
    IsName(t) && i < RootEntryCount(d) && Matches(d, i, t) && forall j :: 0 <= j < i ==> !Matches(d, j, t)
  }

  method SearchFile(d: Image, path: seq<Byte>) returns (index: U32)
    requires Terminated(path)
    ensures index != NOT_FOUND ==> Names(d, Text(path), index)
    ensures index == NOT_FOUND <==> !IsName(Text(path)) || forall i :: 0 <= i < RootEntryCount(d) ==>
        !Matches(d, i, Text(path))
  {
    var name, ext := new Byte[8](_ => SPACE), new Byte[3](_ => SPACE);
    assert name[..] == Pad([], 8) && ext[..] == Pad([], 3);
    var ok := SplitPath(path, name, ext);
    hide Pad, EntryName, EntryExt, IsName;
    if ok {
      for i := 0 to RootEntryCount(d)
        invariant name[..] == Pad(Base(Text(path)), 8) && ext[..] == Pad(Extension(Text(path)), 3)
        invariant forall j :: 0 <= j < i ==> !Matches(d, j, Text(path))
      {
        if IsLive(d, i) && EntryName(d, i) == name[..] && EntryExt(d, i) == ext[..] {
          return i;
        }
      }
    }
    return NOT_FOUND;
  }
}
