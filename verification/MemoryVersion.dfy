/**
 * Sets of records: their order on disk and the bytes their version is taken from (src/app/memory/store.py, _scan
 * and _version). SHA-256 is taken as injective, so a version is the hashed bytes themselves.
 */
module MemoryVersion {
  import opened Common
  import opened Utf8
  import opened Names
  import opened MemoryRecord

  type Table = map<string, Record>

  /** Every record is stored under its own slug and is well formed. */
  ghost predicate Proper(m: Table) {
    forall s :: s in m ==> m[s].slug == s && Wellformed(m[s])
  }

  function FileName(slug: string): (n: string)
    ensures |n| == |slug| + 3 && n[..|slug|] == slug
  {
    slug + ".md"
  }

  function InOrder(m: Table): (r: seq<Record>)
    ensures |r| == |Sorted(m.Keys)| && forall i :: 0 <= i < |r| ==> r[i] == m[Sorted(m.Keys)[i]]
  {
    var names := Sorted(m.Keys);
    assert forall i :: 0 <= i < |names| ==> names[i] in names;
    seq(|names|, i requires 0 <= i < |names| => m[names[i]])
  }

  // ---- File-name order against slug order ----

  predicate Lettered(s: string) {
    forall i :: 0 <= i < |s| ==> SlugChar(s[i]) || s[i] == '-'
  }

  predicate Extends(s: string, t: string) {
    s + "-" <= t
  }

  /** A hyphen sorts before the dot of ".md" and everything else in a slug after it. */
  lemma {:induction false} FileOrderIff(s: string, t: string)
    requires Lettered(s) && Lettered(t) && Lt(s, t)
    ensures Lt(FileName(s), FileName(t)) <==> !Extends(s, t)
  {
    if s == "" {
      FileOrderFirst(t);
    } else {
      FileNameTail(s);
      FileNameTail(t);
      if s[0] == t[0] {
        FileOrderIff(s[1..], t[1..]);
        ExtendsTail(s, t);
      } else {
        assert (s + "-")[0] == s[0];
      }
    }
  }

  lemma FileNameTail(s: string)
    requires s != ""
    ensures FileName(s)[0] == s[0] && FileName(s)[1..] == FileName(s[1..])
  {}

  lemma FileOrderFirst(t: string)
    requires Lettered(t) && t != ""
    ensures Lt(FileName(""), FileName(t)) <==> !Extends("", t)
  {
    assert FileName("") == ".md" && FileName("")[0] == '.' && FileName(t)[0] == t[0];
    assert "" + "-" == "-";
    if t[0] == '-' {
      assert t[..1] == "-";
    }
  }

  lemma ExtendsTail(s: string, t: string)
    requires s != "" && t != "" && s[0] == t[0]
    ensures Extends(s, t) <==> Extends(s[1..], t[1..])
  {}

  lemma {:induction false} PrefixLt(s: string, t: string)
    requires Extends(s, t)
    ensures Lt(s, t)
  {
    if s == "" {
    } else {
      assert (s + "-")[0] == s[0];
      ExtendsTail(s, t);
      PrefixLt(s[1..], t[1..]);
    }
  }

  ghost predicate InFileOrder(slugs: seq<string>) {
    forall i, j :: 0 <= i < j < |slugs| ==> Lt(FileName(slugs[i]), FileName(slugs[j]))
  }

  ghost predicate NoneExtends(slugs: seq<string>) {
    forall i, j :: 0 <= i < |slugs| && 0 <= j < |slugs| ==> !Extends(slugs[i], slugs[j])
  }

  lemma PairInOrder(slugs: seq<string>, i: nat, j: nat)
    requires InFileOrder(slugs) && i < j < |slugs|
    requires Lettered(slugs[i]) && Lettered(slugs[j]) && !Extends(slugs[j], slugs[i])
    ensures Lt(slugs[i], slugs[j])
  {
    Distinct(FileName(slugs[i]), FileName(slugs[j]));
    LtTotal(slugs[i], slugs[j]);
    if Lt(slugs[j], slugs[i]) {
      FileOrderIff(slugs[j], slugs[i]);
    }
  }

  lemma PairOutOfOrder(slugs: seq<string>, i: nat, j: nat)
    requires InFileOrder(slugs) && i < |slugs| && j < |slugs|
    requires Lettered(slugs[i]) && Lettered(slugs[j]) && Extends(slugs[i], slugs[j])
    ensures j < i && Lt(slugs[i], slugs[j])
  {
    PrefixLt(slugs[i], slugs[j]);
    LtIrreflexive(slugs[i]);
    FileOrderIff(slugs[i], slugs[j]);
  }

  /** A listing by file name is a listing by slug exactly when no slug is another one continued by a hyphen. */
  lemma SlugOrderIff(slugs: seq<string>)
    requires InFileOrder(slugs) && forall i :: 0 <= i < |slugs| ==> Lettered(slugs[i])
    ensures Increasing(slugs) <==> NoneExtends(slugs)
  {
    if NoneExtends(slugs) {
      forall i, j | 0 <= i < j < |slugs| ensures Lt(slugs[i], slugs[j]) {
        PairInOrder(slugs, i, j);
      }
    }
    if Increasing(slugs) {
      forall i, j | 0 <= i < |slugs| && 0 <= j < |slugs| ensures !Extends(slugs[i], slugs[j]) {
        if Extends(slugs[i], slugs[j]) {
          PairOutOfOrder(slugs, i, j);
          Distinct(slugs[j], slugs[i]);
        }
      }
    }
  }

  /** The listing need not be by slug: "a-b.md" comes before "a.md". */
  lemma FileOrderIsNotSlugOrder()
    ensures IsSlug("a") && IsSlug("a-b") && Lt("a", "a-b") && Lt(FileName("a-b"), FileName("a"))
  {}

  // ---- The hashed bytes ----

  function Pow256(k: nat): (p: nat)
    ensures p > 0
  {
    if k == 0 then 1 else 256 * Pow256(k - 1)
  }

  function BigEndian(n: nat, width: nat): (b: seq<Byte>)
    ensures |b| == width
  {
    if width == 0 then [] else BigEndian(n / 256, width - 1) + [n % 256]
  }

  lemma {:induction false} BigEndianInjective(a: nat, b: nat, width: nat)
    requires a < Pow256(width) && b < Pow256(width) && BigEndian(a, width) == BigEndian(b, width)
    ensures a == b
  {
    if width == 0 {
    } else {
      var x, y := BigEndian(a, width), BigEndian(b, width);
      assert x[width - 1] == a % 256 && y[width - 1] == b % 256;
      assert x[..width - 1] == BigEndian(a / 256, width - 1) && y[..width - 1] == BigEndian(b / 256, width - 1);
      BigEndianInjective(a / 256, b / 256, width - 1);
    }
  }

  /** A byte string behind its length. */
  function Frame(width: nat, b: seq<Byte>): seq<Byte> {
    BigEndian(|b|, width) + b
  }

  lemma FrameSplit(width: nat, a: seq<Byte>, b: seq<Byte>, resta: seq<Byte>, restb: seq<Byte>)
    requires |a| < Pow256(width) && |b| < Pow256(width)
    requires Frame(width, a) + resta == Frame(width, b) + restb
    ensures a == b && resta == restb
  {
    var x, y := Frame(width, a) + resta, Frame(width, b) + restb;
    assert x[..width] == BigEndian(|a|, width) && y[..width] == BigEndian(|b|, width);
    BigEndianInjective(|a|, |b|, width);
    assert x[width..width + |a|] == a && y[width..width + |b|] == b;
    assert x[width + |a|..] == resta && y[width + |b|..] == restb;
  }

  function NameBytes(r: Record): seq<Byte> {
    Bytes(FileName(r.slug))
  }

  function FileBytes(yaml: Yaml, r: Record): seq<Byte> {
    Bytes(Serialize(yaml, r))
  }

  function Hashed(yaml: Yaml, records: seq<Record>): seq<Byte> {
    if records == [] then []
    else Frame(4, NameBytes(records[0])) + (Frame(8, FileBytes(yaml, records[0])) + Hashed(yaml, records[1..]))
  }

  /** Lengths that fit their prefixes: a file name under 4 GiB, a file under 16 EiB. */
  ghost predicate Sized(yaml: Yaml, r: Record) {
    |NameBytes(r)| < Pow256(4) && |FileBytes(yaml, r)| < Pow256(8)
  }

  ghost predicate SameFiles(yaml: Yaml, a: seq<Record>, b: seq<Record>) {
    |a| == |b| && forall i :: 0 <= i < |a| ==> a[i].slug == b[i].slug && FileBytes(yaml, a[i]) == FileBytes(yaml, b[i])
  }

  lemma {:induction false} HashedInjective(yaml: Yaml, a: seq<Record>, b: seq<Record>)
    requires forall i :: 0 <= i < |a| ==> Sized(yaml, a[i])
    requires forall i :: 0 <= i < |b| ==> Sized(yaml, b[i])
    requires Hashed(yaml, a) == Hashed(yaml, b)
    ensures SameFiles(yaml, a, b)
  {
    if a == [] || b == [] {
      HashedEmpty(yaml, a);
      HashedEmpty(yaml, b);
    } else {
      assert Sized(yaml, a[0]) && Sized(yaml, b[0]);
      var resta, restb := Hashed(yaml, a[1..]), Hashed(yaml, b[1..]);
      FrameSplit(4, NameBytes(a[0]), NameBytes(b[0]),
                 Frame(8, FileBytes(yaml, a[0])) + resta, Frame(8, FileBytes(yaml, b[0])) + restb);
      FrameSplit(8, FileBytes(yaml, a[0]), FileBytes(yaml, b[0]), resta, restb);
      BytesInjective(FileName(a[0].slug), FileName(b[0].slug));
      HashedInjective(yaml, a[1..], b[1..]);
      SameFilesCons(yaml, a, b);
    }
  }

  lemma HashedEmpty(yaml: Yaml, a: seq<Record>)
    ensures Hashed(yaml, a) == [] <==> a == []
  {}

  lemma SameFilesCons(yaml: Yaml, a: seq<Record>, b: seq<Record>)
    requires a != [] && b != [] && SameFiles(yaml, a[1..], b[1..])
    requires a[0].slug == b[0].slug && FileBytes(yaml, a[0]) == FileBytes(yaml, b[0])
    ensures SameFiles(yaml, a, b)
  {}

  lemma {:induction false} HashedOfSame(yaml: Yaml, a: seq<Record>, b: seq<Record>)
    requires SameFiles(yaml, a, b)
    ensures Hashed(yaml, a) == Hashed(yaml, b)
  {
    if a == [] {
    } else {
      HashedOfSame(yaml, a[1..], b[1..]);
    }
  }

  function Version(yaml: Yaml, m: Table): seq<Byte> {
    Hashed(yaml, InOrder(m))
  }

  function KeptAll(m: Table): Table {
    map s | s in m :: Kept(m[s])
  }

  /** Records as they come back from disk: nothing left for line-end translation to change. */
  ghost predicate Translated(m: Table) {
    forall s :: s in m ==> '\r' !in m[s].content
  }

  lemma SameFileIff(yaml: Yaml, a: Record, b: Record)
    requires Faithful(yaml) && Wellformed(a) && Wellformed(b) && a.slug == b.slug
    requires '\r' !in a.content && '\r' !in b.content
    ensures FileBytes(yaml, a) == FileBytes(yaml, b) <==> Kept(a) == Kept(b)
  {
    ReadOfSerialize(yaml, a);
    ReadOfSerialize(yaml, b);
    StrippedKeeps(a.content);
    StrippedKeeps(b.content);
  }

  lemma StrippedKeeps(s: string)
    requires '\r' !in s
    ensures Newlines(RStrip(s)) == RStrip(s)
  {
    NewlinesKeeps(RStrip(s));
  }

  ghost predicate AllSized(yaml: Yaml, m: Table) {
    forall s :: s in m ==> Sized(yaml, m[s])
  }

  lemma OrderedMember(m: Table, i: nat)
    requires i < |InOrder(m)|
    ensures Sorted(m.Keys)[i] in m
  {}

  lemma OrderedRecord(m: Table, i: nat)
    requires Proper(m) && i < |InOrder(m)|
    ensures var r := InOrder(m)[i]; r.slug in m && m[r.slug] == r
  {}

  lemma OrderedPlace(m: Table, s: string) returns (i: nat)
    requires s in m
    ensures i < |InOrder(m)| && InOrder(m)[i] == m[s]
  {
    assert s in Sorted(m.Keys);
    i :| 0 <= i < |Sorted(m.Keys)| && Sorted(m.Keys)[i] == s;
  }

  lemma SameTables(yaml: Yaml, a: Table, b: Table)
    requires Proper(a) && Proper(b) && a.Keys == b.Keys
    requires forall s :: s in a ==> FileBytes(yaml, a[s]) == FileBytes(yaml, b[s])
    ensures SameFiles(yaml, InOrder(a), InOrder(b))
  {
    forall i | 0 <= i < |InOrder(a)| ensures InOrder(a)[i].slug == InOrder(b)[i].slug
      && FileBytes(yaml, InOrder(a)[i]) == FileBytes(yaml, InOrder(b)[i]) {
      OrderedMember(a, i);
    }
  }

  lemma TablesOfSame(yaml: Yaml, a: Table, b: Table, s: string)
    requires Proper(a) && Proper(b) && SameFiles(yaml, InOrder(a), InOrder(b)) && s in a
    ensures s in b && FileBytes(yaml, a[s]) == FileBytes(yaml, b[s])
  {
    var i := OrderedPlace(a, s);
    OrderedRecord(b, i);
  }

  /** Two sets read from disk have the same version exactly when they are the same up to right-stripping. */
  lemma VersionIff(yaml: Yaml, a: Table, b: Table)
    requires Faithful(yaml) && Proper(a) && Proper(b) && Translated(a) && Translated(b)
    requires AllSized(yaml, a) && AllSized(yaml, b)
    ensures Version(yaml, a) == Version(yaml, b) <==> KeptAll(a) == KeptAll(b)
  {
    if Version(yaml, a) == Version(yaml, b) {
      AllSizedInOrder(yaml, a);
      AllSizedInOrder(yaml, b);
      HashedInjective(yaml, InOrder(a), InOrder(b));
      SameRecords(yaml, a, b);
    }
    if KeptAll(a) == KeptAll(b) {
      SameVersion(yaml, a, b);
    }
  }

  lemma SameRecords(yaml: Yaml, a: Table, b: Table)
    requires Faithful(yaml) && Proper(a) && Proper(b) && Translated(a) && Translated(b)
    requires SameFiles(yaml, InOrder(a), InOrder(b))
    ensures KeptAll(a) == KeptAll(b)
  {
    forall s | s in a ensures s in b && Kept(a[s]) == Kept(b[s]) {
      SameRecord(yaml, a, b, s);
    }
    SameFilesSymmetric(yaml, InOrder(a), InOrder(b));
    forall s | s in b ensures s in a {
      TablesOfSame(yaml, b, a, s);
    }
    KeptEqual(a, b);
  }

  lemma SameFilesSymmetric(yaml: Yaml, a: seq<Record>, b: seq<Record>)
    requires SameFiles(yaml, a, b)
    ensures SameFiles(yaml, b, a)
  {}

  lemma SameRecord(yaml: Yaml, a: Table, b: Table, s: string)
    requires Faithful(yaml) && Proper(a) && Proper(b) && Translated(a) && Translated(b)
    requires SameFiles(yaml, InOrder(a), InOrder(b)) && s in a
    ensures s in b && Kept(a[s]) == Kept(b[s])
  {
    TablesOfSame(yaml, a, b, s);
    SameFileIff(yaml, a[s], b[s]);
  }

  lemma KeptEqual(a: Table, b: Table)
    requires forall s :: s in a ==> s in b && Kept(a[s]) == Kept(b[s])
    requires forall s :: s in b ==> s in a
    ensures KeptAll(a) == KeptAll(b)
  {}

  lemma AllSizedInOrder(yaml: Yaml, m: Table)
    requires AllSized(yaml, m)
    ensures forall i :: 0 <= i < |InOrder(m)| ==> Sized(yaml, InOrder(m)[i])
  {}

  lemma SameVersion(yaml: Yaml, a: Table, b: Table)
    requires Faithful(yaml) && Proper(a) && Proper(b) && Translated(a) && Translated(b)
    requires KeptAll(a) == KeptAll(b)
    ensures Version(yaml, a) == Version(yaml, b)
  {
    assert a.Keys == KeptAll(a).Keys && b.Keys == KeptAll(b).Keys;
    forall s | s in a ensures FileBytes(yaml, a[s]) == FileBytes(yaml, b[s]) {
      assert KeptAll(a)[s] == KeptAll(b)[s];
      SameFileIff(yaml, a[s], b[s]);
    }
    SameTables(yaml, a, b);
    HashedOfSame(yaml, InOrder(a), InOrder(b));
  }
}
