/**
  The test-suite fingerprint of app/snapshots/fingerprints.py. SHA-256 stays abstract: the model is
  about the bytes that are fed to it.
*/
module Fingerprints {
  import opened Core
  import opened Sorting
  import opened Lexical

  type Byte = b: nat | b < 256

  type Bytes = seq<Byte>

  /** A path below the tests directory, as its UTF-8 parts, and what the file contains. */
  datatype File = File(path: seq<Bytes>, content: Bytes)

  const Slash: Byte := 47

  const Limit: nat := 0x1_0000_0000_0000_0000

  /** A path has a part, and no part holds a separator. */
  predicate ValidPath(path: seq<Bytes>) {
    path != [] && forall i :: 0 <= i < |path| ==> Slash !in path[i]
  }

  // ----- Frames -----

  function BigEndian(n: nat, width: nat): (r: Bytes)
    ensures |r| == width
  {
    if width == 0 then [] else BigEndian(n / 256, width - 1) + [n % 256]
  }

  function Number(bytes: Bytes): nat {
    if bytes == [] then 0 else Number(bytes[..|bytes| - 1]) * 256 + bytes[|bytes| - 1]
  }

  function Framed(value: Bytes): Bytes {
    BigEndian(|value|, 8) + value
  }

  function Power(width: nat): nat {
    if width == 0 then 1 else 256 * Power(width - 1)
  }

  lemma {:induction false} NumberOfBigEndian(n: nat, width: nat)
    requires n < Power(width)
    ensures Number(BigEndian(n, width)) == n
  {
    if width > 0 {
      NumberOfBigEndian(n / 256, width - 1);
      assert BigEndian(n, width)[..width - 1] == BigEndian(n / 256, width - 1);
    }
  }

  lemma {:induction false} BigEndianOfNumber(bytes: Bytes)
    ensures Number(bytes) < Power(|bytes|)
    ensures BigEndian(Number(bytes), |bytes|) == bytes
  {
    if bytes != [] {
      BigEndianOfNumber(bytes[..|bytes| - 1]);
      assert bytes == bytes[..|bytes| - 1] + [bytes[|bytes| - 1]];
    }
  }

  lemma EightBytes()
    ensures Power(8) == Limit
  {
    assert Power(2) == 65536;
    assert Power(4) == 65536 * 65536;
    assert Power(6) == 65536 * 65536 * 65536;
  }

  datatype Cut = Cut(frame: Bytes, rest: Bytes)

  function TakeFrame(s: Bytes): (r: Option<Cut>)
    ensures r.Some? ==> |r.value.rest| < |s|
  {
    if |s| < 8 then None
    else
      var n := Number(s[..8]);
      if |s| - 8 < n then None else Some(Cut(s[8..8 + n], s[8 + n..]))
  }

  lemma TakeFramed(value: Bytes, rest: Bytes)
    requires |value| < Limit
    ensures TakeFrame(Framed(value) + rest) == Some(Cut(value, rest))
  {
    hide BigEndian, Number;
    EightBytes();
    NumberOfBigEndian(|value|, 8);
    var s := Framed(value) + rest;
    assert s[..8] == BigEndian(|value|, 8);
    assert s[8..8 + |value|] == value && s[8 + |value|..] == rest;
  }

  lemma FrameTaken(s: Bytes)
    ensures var r := TakeFrame(s);
      r.Some? ==> |r.value.frame| < Limit && s == Framed(r.value.frame) + r.value.rest
  {
    hide BigEndian, Number;
    if |s| >= 8 {
      EightBytes();
      BigEndianOfNumber(s[..8]);
    }
  }

  // ----- The stream of a list of files -----

  /** Name and content of a file as they are fed to the digest. */
  datatype Item = Item(name: Bytes, content: Bytes)

  function Stream(items: seq<Item>): Bytes {
    if items == [] then [] else Framed(items[0].name) + Framed(items[0].content) + Stream(items[1..])
  }

  predicate Short(items: seq<Item>) {
    forall i :: 0 <= i < |items| ==> |items[i].name| < Limit && |items[i].content| < Limit
  }

  /** Reads the whole stream back, or fails. */
  function Parse(s: Bytes): Option<seq<Item>>
    decreases |s|
  {
    if s == [] then Some([])
    else
      var name := TakeFrame(s);
      if name.None? then None
      else
        var content := TakeFrame(name.value.rest);
        if content.None? then None
        else
          var items := Parse(content.value.rest);
          if items.None? then None
          else Some([Item(name.value.frame, content.value.frame)] + items.value)
  }

  lemma {:induction false} ParseRecovers(items: seq<Item>)
    requires Short(items)
    ensures Parse(Stream(items)) == Some(items)
  {
    hide TakeFrame, Framed;
    if items != [] {
      var rest := Stream(items[1..]);
      var tail := Framed(items[0].content) + rest;
      assert Stream(items) == Framed(items[0].name) + tail;
      TakeFramed(items[0].name, tail);
      TakeFramed(items[0].content, rest);
      FramedNotEmpty(items[0].name);
      ParseRecovers(items[1..]);
      assert items == [Item(items[0].name, items[0].content)] + items[1..];
    }
  }

  lemma FramedNotEmpty(value: Bytes)
    ensures |Framed(value)| >= 8
  {
  }

  /** The parser accepts exactly the streams, and each in one way. */
  lemma {:induction false} ParsedIsStream(s: Bytes)
    ensures Parse(s).Some? ==> Short(Parse(s).value) && Stream(Parse(s).value) == s
    decreases |s|
  {
    hide TakeFrame, Framed;
    if s != [] && Parse(s).Some? {
      FrameTaken(s);
      var name := TakeFrame(s).value;
      ParsedTail(s);
      FrameTaken(name.rest);
      var content := TakeFrame(name.rest).value;
      ParsedIsStream(content.rest);
      assert Parse(s).value[1..] == Parse(content.rest).value;
    }
  }

  lemma ParsedTail(s: Bytes)
    requires s != [] && Parse(s).Some?
    ensures TakeFrame(s).Some?
    ensures var name := TakeFrame(s).value;
      && |name.rest| < |s| && TakeFrame(name.rest).Some?
      && var content := TakeFrame(name.rest).value;
      && |content.rest| < |s| && Parse(content.rest).Some?
      && Parse(s).value == [Item(name.frame, content.frame)] + Parse(content.rest).value
  {
  }

  lemma FramingIsInjective(a: seq<Item>, b: seq<Item>)
    requires Short(a) && Short(b)
    ensures Stream(a) == Stream(b) <==> a == b
  {
    ParseRecovers(a);
    ParseRecovers(b);
  }

  // ----- Names -----

  function PosixName(path: seq<Bytes>): Bytes {
    if path == [] then []
    else if |path| == 1 then path[0] else path[0] + [Slash] + PosixName(path[1..])
  }

  function SlashAt(name: Bytes): (i: nat)
    ensures i <= |name|
    ensures i < |name| ==> name[i] == Slash
    ensures forall k :: 0 <= k < i ==> name[k] != Slash
  {
    if name == [] || name[0] == Slash then 0 else 1 + SlashAt(name[1..])
  }

  function SplitName(name: Bytes): seq<Bytes>
    decreases |name|
  {
    var i := SlashAt(name);
    if i == |name| then [name] else [name[..i]] + SplitName(name[i + 1..])
  }

  lemma SplitFirst(part: Bytes, rest: Bytes)
    requires Slash !in part
    ensures SplitName(part) == [part]
    ensures SplitName(part + [Slash] + rest) == [part] + SplitName(rest)
  {
    var name, i := part + [Slash] + rest, |part|;
    assert name[i] == Slash && name[..i] == part && name[i + 1..] == rest;
    assert forall k :: 0 <= k < i ==> name[k] == part[k];
    assert SlashAt(name) == i;
  }

  lemma {:induction false} SplitRecovers(path: seq<Bytes>)
    requires ValidPath(path)
    ensures SplitName(PosixName(path)) == path
  {
    hide SplitName;
    assert Slash !in path[0];
    if |path| == 1 {
      SplitFirst(path[0], []);
      assert path == [path[0]];
    } else {
      SplitFirst(path[0], PosixName(path[1..]));
      SplitRecovers(path[1..]);
      assert path == [path[0]] + path[1..];
    }
  }

  // ----- Which files, in which order -----

  const PyCache: Bytes := [95, 95, 112, 121, 99, 97, 99, 104, 101, 95, 95]

  /** Compiled Python is left out: anything below __pycache__ and names ending in .pyc or .pyo. */
  predicate Compiled(path: seq<Bytes>) {
    var name := if path == [] then [] else path[|path| - 1];
    PyCache in path
    || (|name| > 4 && name[|name| - 4..] in {[46, 112, 121, 99], [46, 112, 121, 111]})
  }

  const Pyc: Bytes := [46, 112, 121, 99]
  const Pyo: Bytes := [46, 112, 121, 111]

  /** A file is left out exactly below a __pycache__ part or when its name is a stem and .pyc or .pyo. */
  lemma CompiledMeans(path: seq<Bytes>)
    requires path != []
    ensures Compiled(path) <==>
      PyCache in path || exists stem :: stem != [] && path[|path| - 1] in {stem + Pyc, stem + Pyo}
  {
    var name := path[|path| - 1];
    if |name| > 4 {
      var stem := name[..|name| - 4];
      assert name == stem + name[|name| - 4..];
    }
    forall stem | stem != [] && name in {stem + Pyc, stem + Pyo} ensures Compiled(path) {
      assert name[|name| - 4..] in {Pyc, Pyo};
    }
  }

  predicate ByteLess(x: Byte, y: Byte) {
    x < y
  }

  predicate PartBelow(x: Bytes, y: Bytes) {
    Lex(ByteLess, x, y)
  }

  /** Paths compare part by part, which is not the order of their names. */
  predicate FileBefore(x: File, y: File) {
    Lex(PartBelow, x.path, y.path)
  }

  lemma PartsAreOrdered()
    ensures StrictTotal(PartBelow)
  {
    forall x, y ensures PartBelow(x, y) || x == y || PartBelow(y, x) {
      LexTrichotomy(ByteLess, x, y);
    }
    forall x, y | PartBelow(x, y) ensures !PartBelow(y, x) {
      LexAsymmetric(ByteLess, x, y);
    }
    forall x, y, z | PartBelow(x, y) && PartBelow(y, z) ensures PartBelow(x, z) {
      LexTransitive(ByteLess, x, y, z);
    }
  }

  lemma FilesAreOrdered()
    ensures WeakOrder(FileBefore)
    ensures forall x, y :: FileBefore(x, y) || x.path == y.path || FileBefore(y, x)
  {
    hide Lex, PartBelow;
    PartsAreOrdered();
    forall x: File, y: File ensures FileBefore(x, y) || x.path == y.path || FileBefore(y, x) {
      LexTrichotomy(PartBelow, x.path, y.path);
    }
    forall x: File ensures !FileBefore(x, x) {
      if FileBefore(x, x) {
        LexAsymmetric(PartBelow, x.path, x.path);
      }
    }
    forall x: File, y: File, z: File | FileBefore(x, y) && FileBefore(y, z) ensures FileBefore(x, z) {
      LexTransitive(PartBelow, x.path, y.path, z.path);
    }
    forall x: File, y: File, z: File | FileBefore(x, z) ensures FileBefore(x, y) || FileBefore(y, z) {
      LexTrichotomy(PartBelow, x.path, y.path);
      if FileBefore(y, x) {
        LexTransitive(PartBelow, y.path, x.path, z.path);
      }
    }
  }

  predicate ValidFile(f: File) {
    ValidPath(f.path) && |PosixName(f.path)| < Limit && |f.content| < Limit
  }

  /** A walk of the directory meets every path once, in any order. */
  predicate ValidWalk(files: seq<File>) {
    && (forall f :: f in files ==> ValidFile(f))
    && (forall f, g :: f in files && g in files && f.path == g.path ==> f == g)
  }

  function Kept(files: seq<File>): (r: seq<File>)
    ensures forall f :: f in r <==> f in files && !Compiled(f.path)
  {
    if files == [] then []
    else Kept(files[..|files| - 1])
         + if Compiled(files[|files| - 1].path) then [] else [files[|files| - 1]]
  }

  function ItemOf(f: File): Item {
    Item(PosixName(f.path), f.content)
  }

  /** The bytes fed to the digest for a walk. */
  function Fed(files: seq<File>): Bytes {
    Stream(Items(files))
  }

  function Items(files: seq<File>): seq<Item> {
    Mapped(ItemOf, Sorted(FileBefore, Kept(files)))
  }

  lemma ItemsDetermineFiles(a: seq<File>, b: seq<File>)
    requires forall f :: f in a || f in b ==> ValidFile(f)
    requires Mapped(ItemOf, a) == Mapped(ItemOf, b)
    ensures a == b
  {
    assert |a| == |Mapped(ItemOf, a)| == |b|;
    forall i | 0 <= i < |a| ensures a[i] == b[i] {
      assert a[i] in a && b[i] in b;
      assert ItemOf(a[i]) == Mapped(ItemOf, a)[i] == ItemOf(b[i]);
      SplitRecovers(a[i].path);
      SplitRecovers(b[i].path);
    }
  }

  lemma SortedKept(files: seq<File>)
    ensures multiset(Sorted(FileBefore, Kept(files))) == multiset(Kept(files))
    ensures forall f :: f in Sorted(FileBefore, Kept(files)) ==> f in files
  {
    hide FileBefore, Sorted, Compiled;
    FilesAreOrdered();
    var kept := Kept(files);
    SortedIsOrdered(FileBefore, kept);
    var sorted := Sorted(FileBefore, kept);
    forall f | f in sorted ensures f in files {
      assert f in multiset(sorted);
      assert f in kept;
    }
  }

  lemma ItemsAreShort(files: seq<File>)
    requires forall f :: f in files ==> ValidFile(f)
    ensures Short(Mapped(ItemOf, files))
  {
    hide PosixName, ValidPath;
    forall i | 0 <= i < |files|
      ensures |Mapped(ItemOf, files)[i].name| < Limit && |Mapped(ItemOf, files)[i].content| < Limit
    {
      assert files[i] in files;
    }
  }

  /**
    Two walks feed the digest the same bytes exactly when they met the same files; the order in
    which the directory listed them does not matter.
  */
  lemma BytesIdentifyTests(a: seq<File>, b: seq<File>)
    requires ValidWalk(a) && ValidWalk(b)
    ensures Fed(a) == Fed(b) <==> multiset(Kept(a)) == multiset(Kept(b))
  {
    hide Sorted, Mapped, Stream, Kept, Short, FileBefore, ValidFile;
    SortedKept(a);
    SortedKept(b);
    var x, y := Sorted(FileBefore, Kept(a)), Sorted(FileBefore, Kept(b));
    ItemsAreShort(x);
    ItemsAreShort(y);
    FramingIsInjective(Mapped(ItemOf, x), Mapped(ItemOf, y));
    if Fed(a) == Fed(b) {
      ItemsDetermineFiles(x, y);
    } else if multiset(Kept(a)) == multiset(Kept(b)) {
      KeptDistinguished(a);
      SortedForgetsOrder(FileBefore, Kept(a), Kept(b));
      assert false;
    }
  }

  lemma KeptDistinguished(files: seq<File>)
    requires ValidWalk(files)
    ensures WeakOrder(FileBefore) && Distinguished(FileBefore, Kept(files))
  {
    FilesAreOrdered();
  }

  /** The files are fed in order of their first differing part, a directory's own files by name. */
  lemma FilesInOrder(files: seq<File>, i: nat, j: nat)
    requires ValidWalk(files) && i < j < |Sorted(FileBefore, Kept(files))|
    ensures var sorted := Sorted(FileBefore, Kept(files));
      sorted[i].path == sorted[j].path
      || exists k :: PartsAt(PartBelow, sorted[i].path, sorted[j].path, k)
  {
    hide Sorted, Kept, Lex, PartsAt, PartBelow;
    FilesAreOrdered();
    SortedIsOrdered(FileBefore, Kept(files));
    var sorted := Sorted(FileBefore, Kept(files));
    LexMeaning(PartBelow, sorted[i].path, sorted[j].path);
  }

  // ----- The digest loop -----

  class Digest {
    var fed: Bytes

    constructor ()
      ensures fed == []
    {
      fed := [];
    }

    method Update(value: Bytes)
      modifies this
      ensures fed == old(fed) + value
    {
      fed := fed + value;
    }

    /** False stands for the OverflowError of a length that does not fit into eight bytes. */
    method UpdateFramed(value: Bytes) returns (ok: bool)
      modifies this
      ensures ok <==> |value| < Limit
      ensures fed == if ok then old(fed) + Framed(value) else old(fed)
    {
      if |value| >= Limit {
        return false;
      }
      Update(BigEndian(|value|, 8));
      Update(value);
      ok := true;
    }
  }

  lemma {:induction false} StreamAppend(items: seq<Item>, item: Item)
    ensures Stream(items + [item]) == Stream(items) + Framed(item.name) + Framed(item.content)
  {
    hide Framed;
    if items == [] {
      assert items + [item] == [item];
    } else {
      assert (items + [item])[1..] == items[1..] + [item];
      StreamAppend(items[1..], item);
    }
  }

  /** Fails only on a name or a content of 2^64 bytes or more. */
  method TestsFingerprint(files: seq<File>) returns (digest: Digest, ok: bool)
    ensures fresh(digest)
    ensures ok <==> Short(Items(files))
    ensures ok ==> digest.fed == Fed(files)
  {
    hide Sorted, Kept, Stream, Framed, PosixName, FileBefore, Mapped;
    digest := new Digest();
    var testFiles := Sorted(FileBefore, Kept(files));
    ghost var items := Items(files);
    EmptyStream();
    for i := 0 to |testFiles|
      invariant fresh(digest) && digest.fed == Stream(items[..i]) && Short(items[..i])
    {
      var item := ItemOf(testFiles[i]);
      ItemAt(testFiles, i);
      ok := digest.UpdateFramed(item.name);
      if !ok {
        return;
      }
      ok := digest.UpdateFramed(item.content);
      if !ok {
        return;
      }
      StreamAppend(items[..i], item);
      assert items[..i + 1] == items[..i] + [item];
    }
    assert items[..|items|] == items;
    ok := true;
  }

  lemma ItemAt(files: seq<File>, i: nat)
    requires i < |files|
    ensures |Mapped(ItemOf, files)| == |files| && Mapped(ItemOf, files)[i] == ItemOf(files[i])
  {
  }

  lemma EmptyStream()
    ensures Stream([]) == []
  {
  }
}
