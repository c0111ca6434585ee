/**
 * The compare-and-swap store over the record directory (src/app/memory/store.py, MemoryStore) and the worker's use of
 * it (src/app/memory/worker.py, _replace_with_rollback).
 */
module MemoryStore {
  import opened Common
  import opened Utf8
  import opened Names
  import opened MemoryRecord
  import opened MemoryVersion
  import MemoryDir

  type Files = MemoryDir.Files

  const INDEX := "MEMORY.md"
  const MAX_INDEX_BYTE := 64 * 1024

  datatype Snapshot = Snapshot(records: seq<Record>, version: seq<Byte>)

  // ---- Reading the directory ----

  predicate IsRecordFile(n: string) {
    |n| >= 3 && n[|n| - 3..] == ".md" && n != INDEX
  }

  function Stem(n: string): (s: string)
    requires IsRecordFile(n)
    ensures FileName(s) == n
  {
    n[..|n| - 3]
  }

  function ReadFile(yaml: Yaml, files: Files, n: string): (r: Reply<Record>)
    requires IsRecordFile(n) && n in files
    ensures r.Err? ==> r.error.Invalid? || r.error.Capacity?
  {
    if IsSlug(Stem(n)) then ReadRecord(yaml, Stem(n), files[n]) else Err(Invalid)
  }

  /** Reading one more file. */
  function ScanOne(yaml: Yaml, files: Files, found: seq<Record>, n: string): (r: Reply<seq<Record>>)
    ensures r.Err? ==> r.error.Invalid? || r.error.Capacity?
  {
    if n !in files || !IsRecordFile(n) then Ok(found)
    else match ReadFile(yaml, files, n) case Err(e) => Err(e) case Ok(one) => Ok(found + [one])
  }

  /** Reading files one after the other: the first that does not read ends the scan. */
  function ScanNames(yaml: Yaml, files: Files, names: seq<string>): (r: Reply<seq<Record>>)
    ensures r.Err? ==> r.error.Invalid? || r.error.Capacity?
  {
    if names == [] then Ok([])
    else
      match ScanNames(yaml, files, names[..|names| - 1])
      case Err(e) => Err(e)
      case Ok(found) => ScanOne(yaml, files, found, names[|names| - 1])
  }

  function SortedNames(files: Files): (names: seq<string>)
    ensures forall i :: 0 <= i < |names| ==> names[i] in files
  {
    var names := Sorted(files.Keys);
    assert forall i :: 0 <= i < |names| ==> names[i] in names;
    names
  }

  function Scan(yaml: Yaml, files: Files): Reply<seq<Record>> {
    ScanNames(yaml, files, SortedNames(files))
  }

  lemma {:induction false} ErrorStays(yaml: Yaml, files: Files, names: seq<string>, i: nat)
    requires i <= |names| && ScanNames(yaml, files, names[..i]).Err?
    ensures ScanNames(yaml, files, names) == ScanNames(yaml, files, names[..i])
  {
    if i == |names| {
      assert names[..i] == names;
    } else {
      var init := names[..|names| - 1];
      assert init[..i] == names[..i];
      ErrorStays(yaml, files, init, i);
    }
  }

  /** A failed scan reports what is wrong with the first file, in order, that does not read. */
  lemma {:induction false} ScanBlames(yaml: Yaml, files: Files, names: seq<string>) returns (i: nat)
    requires ScanNames(yaml, files, names).Err?
    ensures i < |names| && names[i] in files && IsRecordFile(names[i])
    ensures ReadFile(yaml, files, names[i]) == Err(ScanNames(yaml, files, names).error)
    ensures ScanNames(yaml, files, names[..i]).Ok?
  {
    var init := names[..|names| - 1];
    if ScanNames(yaml, files, init).Err? {
      i := ScanBlames(yaml, files, init);
      assert init[..i] == names[..i] && init[i] == names[i];
    } else {
      i := |names| - 1;
    }
  }

  lemma ScanStep(yaml: Yaml, files: Files, names: seq<string>, i: nat)
    requires i < |names| && ScanNames(yaml, files, names[..i]).Ok?
    ensures ScanNames(yaml, files, names[..i + 1]) ==
            ScanOne(yaml, files, ScanNames(yaml, files, names[..i]).value, names[i])
  {
    assert names[..i + 1][..i] == names[..i];
  }

  /** _scan. */
  method ScanFiles(yaml: Yaml, files: Files) returns (r: Reply<seq<Record>>)
    ensures r == Scan(yaml, files)
  {
    r := ScanInTurn(yaml, files, SortedNames(files));
  }

  method ScanInTurn(yaml: Yaml, files: Files, names: seq<string>) returns (r: Reply<seq<Record>>)
    ensures r == ScanNames(yaml, files, names)
  {
    r := Ok([]);
    var i := 0;
    while i < |names|
      invariant 0 <= i <= |names| && r.Ok?
      invariant r == ScanNames(yaml, files, names[..i])
    {
      ScanStep(yaml, files, names, i);
      r := ScanOne(yaml, files, r.value, names[i]);
      i := i + 1;
      if r.Err? {
        ErrorStays(yaml, files, names, i);
        return;
      }
    }
    assert names[..i] == names;
  }

  // ---- What a scan returns ----

  function Slugs(records: seq<Record>): (r: seq<string>)
    ensures |r| == |records| && forall i :: 0 <= i < |r| ==> r[i] == records[i].slug
  {
    seq(|records|, i requires 0 <= i < |records| => records[i].slug)
  }

  /** The record was read from its own file. */
  ghost predicate ReadBack(yaml: Yaml, files: Files, r: Record) {
    && FileName(r.slug) in files && FileName(r.slug) != INDEX
    && IsSlug(r.slug) && ReadRecord(yaml, r.slug, files[FileName(r.slug)]) == Ok(r)
  }

  ghost predicate Readable(yaml: Yaml, files: Files, n: string) {
    n in files && (IsRecordFile(n) ==> ReadFile(yaml, files, n).Ok?)
  }

  ghost predicate AllAre(names: seq<string>, P: string -> bool) {
    forall i :: 0 <= i < |names| ==> P(names[i])
  }

  lemma AllLast(names: seq<string>, P: string -> bool)
    requires names != []
    ensures AllAre(names, P) <==> AllAre(names[..|names| - 1], P) && P(names[|names| - 1])
  {}

  /** A scan succeeds exactly when every record file reads. */
  lemma {:induction false} ScanOkIff(yaml: Yaml, files: Files, names: seq<string>)
    requires forall i :: 0 <= i < |names| ==> names[i] in files
    ensures ScanNames(yaml, files, names).Ok? <==> AllAre(names, n => Readable(yaml, files, n))
  {
    if names == [] {
    } else {
      AllLast(names, n => Readable(yaml, files, n));
      ScanOkIff(yaml, files, names[..|names| - 1]);
    }
  }

  lemma {:induction false} ScanReads(yaml: Yaml, files: Files, names: seq<string>)
    requires forall i :: 0 <= i < |names| ==> names[i] in files
    requires ScanNames(yaml, files, names).Ok?
    ensures forall i :: 0 <= i < |ScanNames(yaml, files, names).value| ==>
              ReadBack(yaml, files, ScanNames(yaml, files, names).value[i])
  {
    if names == [] {
    } else {
      var n := names[|names| - 1];
      ScanReads(yaml, files, names[..|names| - 1]);
      if IsRecordFile(n) {
        ReadIsWellformed(yaml, Stem(n), files[n]);
      }
    }
  }

  /** Every record file yields its record. */
  lemma {:induction false} ScanFinds(yaml: Yaml, files: Files, names: seq<string>, k: nat)
    requires forall i :: 0 <= i < |names| ==> names[i] in files
    requires ScanNames(yaml, files, names).Ok? && k < |names| && IsRecordFile(names[k])
    ensures Stem(names[k]) in Slugs(ScanNames(yaml, files, names).value)
  {
    var found := ScanNames(yaml, files, names).value;
    var init := names[..|names| - 1];
    var before := ScanNames(yaml, files, init).value;
    if k == |names| - 1 {
      ReadIsWellformed(yaml, Stem(names[k]), files[names[k]]);
      assert Slugs(found)[|found| - 1] == Stem(names[k]);
    } else {
      ScanFinds(yaml, files, init, k);
      var i :| 0 <= i < |before| && Slugs(before)[i] == Stem(names[k]);
      assert Slugs(found)[i] == Stem(names[k]);
    }
  }

  ghost predicate AllFrom(records: seq<Record>, names: seq<string>) {
    forall i :: 0 <= i < |records| ==> FileName(records[i].slug) in names
  }

  lemma AllFromMore(records: seq<Record>, names: seq<string>)
    requires names != [] && AllFrom(records, names[..|names| - 1])
    ensures AllFrom(records, names)
  {
    assert forall x :: x in names[..|names| - 1] ==> x in names;
  }

  lemma {:induction false} ScanFrom(yaml: Yaml, files: Files, names: seq<string>)
    requires forall i :: 0 <= i < |names| ==> names[i] in files
    requires ScanNames(yaml, files, names).Ok?
    ensures AllFrom(ScanNames(yaml, files, names).value, names)
  {
    if names == [] {
    } else {
      var init, n := names[..|names| - 1], names[|names| - 1];
      ScanFrom(yaml, files, init);
      AllFromMore(ScanNames(yaml, files, init).value, names);
      assert n in names;
      if IsRecordFile(n) {
        ReadIsWellformed(yaml, Stem(n), files[n]);
      }
    }
  }

  lemma {:induction false} ScanInOrder(yaml: Yaml, files: Files, names: seq<string>)
    requires forall i :: 0 <= i < |names| ==> names[i] in files
    requires ScanNames(yaml, files, names).Ok? && Increasing(names)
    ensures InFileOrder(Slugs(ScanNames(yaml, files, names).value))
  {
    if names == [] {
    } else {
      var init, n := names[..|names| - 1], names[|names| - 1];
      ScanInOrder(yaml, files, init);
      ScanFrom(yaml, files, init);
      if IsRecordFile(n) {
        ReadIsWellformed(yaml, Stem(n), files[n]);
        AddLast(ScanNames(yaml, files, init).value, names, ReadFile(yaml, files, n).value);
      }
    }
  }

  lemma AddLast(found: seq<Record>, names: seq<string>, r: Record)
    requires names != [] && Increasing(names) && FileName(r.slug) == names[|names| - 1]
    requires AllFrom(found, names[..|names| - 1]) && InFileOrder(Slugs(found))
    ensures InFileOrder(Slugs(found + [r]))
  {}

  // ---- Sets of records as tables ----

  /** {one.slug: one for one in records}. */
  function TableOf(records: seq<Record>): Table {
    if records == [] then map[]
    else
      var r := records[|records| - 1];
      TableOf(records[..|records| - 1])[r.slug := r]
  }

  lemma {:induction false} TableKeys(records: seq<Record>)
    ensures forall s :: s in TableOf(records) <==> s in Slugs(records)
    ensures forall s :: s in TableOf(records) ==> TableOf(records)[s] in records && TableOf(records)[s].slug == s
  {
    if records == [] {
    } else {
      var init, r := records[..|records| - 1], records[|records| - 1];
      TableKeys(init);
      assert records == init + [r];
      assert Slugs(records) == Slugs(init) + [r.slug];
    }
  }

  ghost predicate DistinctSlugs(records: seq<Record>) {
    forall i, j :: 0 <= i < j < |records| ==> records[i].slug != records[j].slug
  }

  lemma DistinctLast(records: seq<Record>)
    requires records != []
    ensures var init := records[..|records| - 1];
            DistinctSlugs(records) <==> DistinctSlugs(init) && records[|records| - 1].slug !in Slugs(init)
  {}

  /** Comparing sizes finds exactly the repeated slugs. */
  lemma {:induction false} TableSize(records: seq<Record>)
    ensures |TableOf(records)| <= |records|
    ensures |TableOf(records)| == |records| <==> DistinctSlugs(records)
  {
    if records == [] {
    } else {
      var init, r := records[..|records| - 1], records[|records| - 1];
      TableSize(init);
      TableKeys(init);
      DistinctLast(records);
      SizeWith(TableOf(init), r.slug, r);
    }
  }

  /** One entry per record file, holding what reading that file gives. */
  ghost predicate Tabulates(yaml: Yaml, files: Files, t: Table) {
    && (forall s :: s in t <==> FileName(s) in files && FileName(s) != INDEX)
    && (forall s :: s in t ==> t[s].slug == s && ReadBack(yaml, files, t[s]))
  }

  /** The whole result of a scan: what the files under `files` say, in file-name order. */
  lemma ScanTable(yaml: Yaml, files: Files)
    requires Scan(yaml, files).Ok?
    ensures InFileOrder(Slugs(Scan(yaml, files).value))
    ensures Proper(TableOf(Scan(yaml, files).value)) && Translated(TableOf(Scan(yaml, files).value))
    ensures Tabulates(yaml, files, TableOf(Scan(yaml, files).value))
  {
    var names, found := SortedNames(files), Scan(yaml, files).value;
    ScanInOrder(yaml, files, names);
    ScanReads(yaml, files, names);
    TableReads(yaml, files, found);
    forall s | FileName(s) in files && FileName(s) != INDEX ensures s in TableOf(found) {
      SlugFound(yaml, files, s);
    }
    TabulatesProper(yaml, files, TableOf(found));
  }

  lemma TableReads(yaml: Yaml, files: Files, found: seq<Record>)
    requires forall i :: 0 <= i < |found| ==> ReadBack(yaml, files, found[i])
    ensures forall s :: s in TableOf(found) ==> TableOf(found)[s].slug == s && ReadBack(yaml, files, TableOf(found)[s])
  {
    TableKeys(found);
    forall s | s in TableOf(found) ensures ReadBack(yaml, files, TableOf(found)[s]) {
      var i :| 0 <= i < |found| && found[i] == TableOf(found)[s];
    }
  }

  lemma TabulatesProper(yaml: Yaml, files: Files, t: Table)
    requires Tabulates(yaml, files, t)
    ensures Proper(t) && Translated(t)
  {
    forall s | s in t ensures t[s].slug == s && Wellformed(t[s]) && '\r' !in t[s].content {
      ReadIsWellformed(yaml, s, files[FileName(s)]);
    }
  }

  lemma SlugFound(yaml: Yaml, files: Files, s: string)
    requires Scan(yaml, files).Ok? && FileName(s) in files && FileName(s) != INDEX
    ensures s in TableOf(Scan(yaml, files).value)
  {
    var names := SortedNames(files);
    assert FileName(s) in Sorted(files.Keys);
    var k :| 0 <= k < |names| && names[k] == FileName(s);
    assert FileName(s)[|s|..] == ".md";
    ScanFinds(yaml, files, names, k);
    TableKeys(Scan(yaml, files).value);
  }

  // ---- The files of a set ----

  function FileNames(slugs: set<string>): set<string> {
    set s | s in slugs :: FileName(s)
  }

  function RecordFiles(yaml: Yaml, m: Table): Files {
    map n | n in FileNames(m.Keys) && IsRecordFile(n) && Stem(n) in m :: FileBytes(yaml, m[Stem(n)])
  }

  function Payload(yaml: Yaml, m: Table): Files {
    RecordFiles(yaml, m)[INDEX := Bytes(IndexText(InOrder(m)))]
  }

  function IndexLines(records: seq<Record>): string {
    if records == [] then ""
    else
      var r := records[|records| - 1];
      IndexLines(records[..|records| - 1])
      + "\n- [" + r.header.name + "](" + r.slug + ".md): " + r.header.description + " (`" + r.header.kind + "`)"
  }

  function IndexText(records: seq<Record>): string {
    RStrip("# \U{8bb0}\U{5fc6}\U{7d22}\U{5f15}\n" + IndexLines(records)) + "\n"
  }

  /** The link of a record in the index, with its description and kind. */
  function Link(r: Record): string {
    "[" + r.header.name + "](" + FileName(r.slug) + "): " + r.header.description + " (`" + r.header.kind + "`)"
  }

  ghost predicate Holds(text: string, part: string, k: nat) {
    k + |part| <= |text| && text[k..k + |part|] == part
  }

  lemma {:induction false} LinesHold(records: seq<Record>, i: nat) returns (k: nat)
    requires i < |records|
    ensures Holds(IndexLines(records), "\n- " + Link(records[i]), k)
  {
    var n := |records| - 1;
    var before, r := IndexLines(records[..n]), records[n];
    var line := "\n- " + Link(r);
    assert IndexLines(records) == before + line by {
      SameLine(before, r.header.name, r.slug, r.header.description, r.header.kind);
    }
    if i == n {
      k := |before|;
    } else {
      k := LinesHold(records[..n], i);
      HoldsLonger(before, line, "\n- " + Link(records[i]), k);
    }
  }

  lemma SameLine(before: string, name: string, slug: string, description: string, kind: string)
    ensures before + "\n- [" + name + "](" + slug + ".md): " + description + " (`" + kind + "`)" ==
            before + ("\n- " + ("[" + name + "](" + FileName(slug) + "): " + description + " (`" + kind + "`)"))
  {}

  lemma HoldsAfter(head: string, text: string, part: string, k: nat)
    requires Holds(text, part, k)
    ensures Holds(head + text, part, |head| + k)
  {
    assert (head + text)[|head| + k..|head| + k + |part|] == text[k..k + |part|];
  }

  lemma LinesEnd(records: seq<Record>)
    requires records != []
    ensures var lines := IndexLines(records); lines != "" && lines[|lines| - 1] == ')'
  {}

  /** Every record is in the index, with its name, its file, its description and its kind. */
  lemma IndexLinks(records: seq<Record>, i: nat) returns (k: nat)
    requires i < |records|
    ensures Holds(IndexText(records), "\n- " + Link(records[i]), k)
  {
    var head, lines := "# \U{8bb0}\U{5fc6}\U{7d22}\U{5f15}\n", IndexLines(records);
    var j := LinesHold(records, i);
    HoldsAfter(head, lines, "\n- " + Link(records[i]), j);
    LinesEnd(records);
    assert (head + lines)[|head + lines| - 1] == ')';
    RStripKeeps(head + lines);
    k := |head| + j;
    HoldsLonger(head + lines, "\n", "\n- " + Link(records[i]), k);
  }

  lemma HoldsLonger(text: string, more: string, part: string, k: nat)
    requires Holds(text, part, k)
    ensures Holds(text + more, part, k)
  {}

  lemma SlugFile(s: string)
    requires IsSlug(s)
    ensures IsRecordFile(FileName(s)) && Stem(FileName(s)) == s
  {}

  lemma StemOfFile(s: string)
    ensures IsRecordFile(FileName(s)) ==> Stem(FileName(s)) == s
  {}

  lemma PayloadFile(yaml: Yaml, m: Table, s: string)
    requires Proper(m)
    ensures s in m <==> FileName(s) in Payload(yaml, m) && FileName(s) != INDEX
    ensures s in m ==> Payload(yaml, m)[FileName(s)] == FileBytes(yaml, m[s])
  {
    StemOfFile(s);
    if s in m {
      SlugFile(s);
      assert FileName(s) in FileNames(m.Keys);
    }
  }

  lemma PayloadReadable(yaml: Yaml, m: Table, n: string)
    requires Faithful(yaml) && Proper(m) && n in Payload(yaml, m)
    ensures Readable(yaml, Payload(yaml, m), n)
  {
    if IsRecordFile(n) {
      var s := Stem(n);
      PayloadFile(yaml, m, s);
      ReadOfSerialize(yaml, m[s]);
    }
  }

  /** Export after a write: exactly the set written, each record as the store keeps it. */
  lemma ScanOfPayload(yaml: Yaml, m: Table)
    requires Faithful(yaml) && Proper(m)
    ensures Scan(yaml, Payload(yaml, m)).Ok?
    ensures TableOf(Scan(yaml, Payload(yaml, m)).value) == KeptAll(m)
  {
    var files := Payload(yaml, m);
    PayloadScans(yaml, m);
    ScanTable(yaml, files);
    PayloadHolds(yaml, m);
    TabulatedTable(yaml, files, m, TableOf(Scan(yaml, files).value));
  }

  /** The record files are exactly those of the table. */
  ghost predicate HoldsTable(yaml: Yaml, files: Files, m: Table) {
    && (forall s :: s in m <==> FileName(s) in files && FileName(s) != INDEX)
    && (forall s :: s in m ==> files[FileName(s)] == FileBytes(yaml, m[s]))
  }

  lemma PayloadHolds(yaml: Yaml, m: Table)
    requires Proper(m)
    ensures HoldsTable(yaml, Payload(yaml, m), m)
  {
    forall s ensures s in m <==> FileName(s) in Payload(yaml, m) && FileName(s) != INDEX {
      PayloadFile(yaml, m, s);
    }
    forall s | s in m ensures Payload(yaml, m)[FileName(s)] == FileBytes(yaml, m[s]) {
      PayloadFile(yaml, m, s);
    }
  }

  lemma TabulatedTable(yaml: Yaml, files: Files, m: Table, t: Table)
    requires Faithful(yaml) && Proper(m) && HoldsTable(yaml, files, m) && Tabulates(yaml, files, t)
    ensures t == KeptAll(m)
  {
    forall s ensures s in m <==> s in t {
      TabulatedKey(yaml, files, m, t, s);
    }
    forall s | s in m ensures t[s] == Kept(m[s]) {
      TabulatedRecord(yaml, files, m, t, s);
    }
    IsKeptAll(m, t);
  }

  lemma IsKeptAll(m: Table, t: Table)
    requires forall s :: s in m <==> s in t
    requires forall s :: s in m ==> t[s] == Kept(m[s])
    ensures t == KeptAll(m)
  {}

  lemma TabulatedKey(yaml: Yaml, files: Files, m: Table, t: Table, s: string)
    requires HoldsTable(yaml, files, m) && Tabulates(yaml, files, t)
    ensures s in m <==> s in t
  {}

  lemma TabulatedRecord(yaml: Yaml, files: Files, m: Table, t: Table, s: string)
    requires Faithful(yaml) && Proper(m) && HoldsTable(yaml, files, m) && Tabulates(yaml, files, t) && s in m
    ensures s in t && t[s] == Kept(m[s])
  {
    ReadOfSerialize(yaml, m[s]);
  }

  lemma PayloadScans(yaml: Yaml, m: Table)
    requires Faithful(yaml) && Proper(m)
    ensures Scan(yaml, Payload(yaml, m)).Ok?
  {
    var files := Payload(yaml, m);
    var names := SortedNames(files);
    forall i | 0 <= i < |names| ensures Readable(yaml, files, names[i]) {
      PayloadReadable(yaml, m, names[i]);
    }
    ScanOkIff(yaml, files, names);
  }

  // ---- Preparing a set ----

  ghost predicate FirstBad(records: seq<Record>, i: nat) {
    i < |records| && !Wellformed(records[i]) && forall j :: 0 <= j < i ==> Wellformed(records[j])
  }

  /** What validating the records in turn raises: the fault of the first that has one. */
  function FirstFault(records: seq<Record>): (e: Option<Error>)
    ensures e == None <==> forall i :: 0 <= i < |records| ==> Wellformed(records[i])
    ensures e.Some? ==> e.value.Invalid? || e.value.Capacity?
  {
    if records == [] then None
    else
      var init := records[..|records| - 1];
      assert forall i :: 0 <= i < |init| ==> init[i] == records[i];
      var e := FirstFault(init);
      if e.Some? then e else Fault(records[|records| - 1])
  }

  lemma {:induction false} FaultIsFirst(records: seq<Record>) returns (i: nat)
    requires FirstFault(records).Some?
    ensures FirstBad(records, i) && FirstFault(records) == Fault(records[i])
  {
    var init := records[..|records| - 1];
    if FirstFault(init).Some? {
      i := FaultIsFirst(init);
      assert forall j :: 0 <= j < i ==> records[j] == init[j];
    } else {
      i := |records| - 1;
      assert forall j :: 0 <= j < i ==> records[j] == init[j];
    }
  }

  function TotalBytes(yaml: Yaml, records: seq<Record>): nat {
    if records == [] then 0
    else TotalBytes(yaml, records[..|records| - 1]) + |FileBytes(yaml, records[|records| - 1])|
  }

  /** The files a set becomes, or why it may not be stored. */
  function Prepared(yaml: Yaml, maxByte: nat, records: seq<Record>): Reply<Files> {
    var m := TableOf(records);
    if |m| != |records| then Err(Invalid)
    else if FirstFault(InOrder(m)).Some? then Err(FirstFault(InOrder(m)).value)
    else if !FitsIn(yaml, maxByte, m) then Err(Capacity)
    else Ok(Payload(yaml, m))
  }

  predicate FitsIn(yaml: Yaml, maxByte: nat, m: Table) {
    var index := Bytes(IndexText(InOrder(m)));
    |index| <= MAX_INDEX_BYTE && |index| + TotalBytes(yaml, InOrder(m)) <= maxByte
  }

  /** A set is accepted exactly when its slugs differ, every record is well formed and it fits. */
  lemma PreparedIff(yaml: Yaml, maxByte: nat, records: seq<Record>)
    ensures var m := TableOf(records);
            Prepared(yaml, maxByte, records).Ok? <==> DistinctSlugs(records) && Proper(m) && FitsIn(yaml, maxByte, m)
  {
    TableSize(records);
    TableKeys(records);
    ProperInOrder(TableOf(records));
  }

  /** Why a set is refused: a repeated slug, else the first record in order that is not well formed, else its size. */
  lemma RefusedBecause(yaml: Yaml, maxByte: nat, records: seq<Record>)
    ensures var m := TableOf(records);
            && (!DistinctSlugs(records) ==> Prepared(yaml, maxByte, records) == Err(Invalid))
            && (DistinctSlugs(records) && Proper(m) && !FitsIn(yaml, maxByte, m) ==>
                  Prepared(yaml, maxByte, records) == Err(Capacity))
    ensures DistinctSlugs(records) && !Proper(TableOf(records)) ==>
              exists i: nat ::
                && FirstBad(InOrder(TableOf(records)), i)
                && Prepared(yaml, maxByte, records) == Err(Fault(InOrder(TableOf(records))[i]).value)
  {
    var m := TableOf(records);
    TableSize(records);
    TableKeys(records);
    ProperInOrder(m);
    if DistinctSlugs(records) && !Proper(m) {
      var i := FaultIsFirst(InOrder(m));
    }
  }

  function AllBytes(yaml: Yaml, records: seq<Record>): seq<Byte> {
    if records == [] then [] else AllBytes(yaml, records[..|records| - 1]) + FileBytes(yaml, records[|records| - 1])
  }

  /** The total is the size of the record files put end to end. */
  lemma {:induction false} TotalIsSize(yaml: Yaml, records: seq<Record>)
    ensures TotalBytes(yaml, records) == |AllBytes(yaml, records)|
  {
    if records == [] {
    } else {
      TotalIsSize(yaml, records[..|records| - 1]);
    }
  }

  lemma ProperInOrder(m: Table)
    requires forall s :: s in m ==> m[s].slug == s
    ensures Proper(m) <==> forall i :: 0 <= i < |InOrder(m)| ==> Wellformed(InOrder(m)[i])
  {
    if Proper(m) {
      forall i | 0 <= i < |InOrder(m)| ensures Wellformed(InOrder(m)[i]) {
        OrderedMember(m, i);
      }
    }
    if forall i :: 0 <= i < |InOrder(m)| ==> Wellformed(InOrder(m)[i]) {
      forall s | s in m ensures Wellformed(m[s]) {
        var i := OrderedPlace(m, s);
      }
    }
  }

  lemma {:induction false} FaultStays(records: seq<Record>, i: nat)
    requires i <= |records| && FirstFault(records[..i]).Some?
    ensures FirstFault(records) == FirstFault(records[..i])
  {
    if i == |records| {
      assert records[..i] == records;
    } else {
      assert records[..|records| - 1][..i] == records[..i];
      FaultStays(records[..|records| - 1], i);
    }
  }

  lemma MeasureStep(yaml: Yaml, ordered: seq<Record>, i: nat)
    requires i < |ordered| && FirstFault(ordered[..i]) == None
    ensures FirstFault(ordered[..i + 1]) == Fault(ordered[i])
    ensures TotalBytes(yaml, ordered[..i + 1]) == TotalBytes(yaml, ordered[..i]) + |FileBytes(yaml, ordered[i])|
  {
    assert ordered[..i + 1][..i] == ordered[..i];
  }

  /** The validation loop of _prepare: the first fault in slug order, or the total size. */
  method Measure(yaml: Yaml, ordered: seq<Record>) returns (fault: Option<Error>, total: nat)
    ensures fault == FirstFault(ordered)
    ensures fault == None ==> total == TotalBytes(yaml, ordered)
  {
    fault, total := None, 0;
    var i := 0;
    while i < |ordered|
      invariant 0 <= i <= |ordered|
      invariant fault == None && FirstFault(ordered[..i]) == None && total == TotalBytes(yaml, ordered[..i])
    {
      MeasureStep(yaml, ordered, i);
      fault := Fault(ordered[i]);
      if fault.Some? {
        FaultStays(ordered, i + 1);
        return;
      }
      total := total + |FileBytes(yaml, ordered[i])|;
      i := i + 1;
    }
    assert ordered[..i] == ordered;
  }

  /** _prepare. */
  method Prepare(yaml: Yaml, maxByte: nat, records: seq<Record>) returns (r: Reply<Files>)
    ensures r == Prepared(yaml, maxByte, records)
  {
    var m := TableOf(records);
    if |m| != |records| {
      return Err(Invalid);
    }
    var fault, total := Measure(yaml, InOrder(m));
    if fault.Some? {
      return Err(fault.value);
    }
    var index := Bytes(IndexText(InOrder(m)));
    if |index| > MAX_INDEX_BYTE || |index| + total > maxByte {
      return Err(Capacity);
    }
    return Ok(Payload(yaml, m));
  }

  // ---- Export, in order ----

  lemma {:induction false} TableAt(records: seq<Record>, i: nat)
    requires DistinctSlugs(records) && i < |records|
    ensures records[i].slug in TableOf(records) && TableOf(records)[records[i].slug] == records[i]
  {
    if i < |records| - 1 {
      TableAt(records[..|records| - 1], i);
    }
  }

  lemma FileOrderDistinct(records: seq<Record>)
    requires InFileOrder(Slugs(records))
    ensures DistinctSlugs(records)
  {
    forall i, j | 0 <= i < j < |records| ensures records[i].slug != records[j].slug {
      Distinct(FileName(Slugs(records)[i]), FileName(Slugs(records)[j]));
    }
  }

  lemma InOrderSlugs(m: Table)
    requires Proper(m)
    ensures Slugs(InOrder(m)) == Sorted(m.Keys)
  {}

  lemma InOrderIff(records: seq<Record>)
    requires DistinctSlugs(records) && Proper(TableOf(records))
    ensures records == InOrder(TableOf(records)) <==> Increasing(Slugs(records))
  {
    var m := TableOf(records);
    InOrderSlugs(m);
    if Increasing(Slugs(records)) {
      TableKeys(records);
      SameMembers(m, records);
      SortedUnique(Slugs(records), Sorted(m.Keys));
      forall i | 0 <= i < |records| ensures records[i] == InOrder(m)[i] {
        TableAt(records, i);
        assert Slugs(records)[i] == Sorted(m.Keys)[i];
      }
    }
  }

  lemma SameMembers(m: Table, records: seq<Record>)
    requires forall s :: s in m <==> s in Slugs(records)
    ensures forall s :: s in Slugs(records) <==> s in Sorted(m.Keys)
  {}

  lemma LetteredSlugs(records: seq<Record>)
    requires DistinctSlugs(records) && Proper(TableOf(records))
    ensures forall i :: 0 <= i < |records| ==> Lettered(Slugs(records)[i])
  {
    forall i | 0 <= i < |records| ensures Lettered(Slugs(records)[i]) {
      TableAt(records, i);
    }
  }

  /** Export lists by slug exactly when no stored slug is another one continued by a hyphen. */
  lemma ExportOrderIff(yaml: Yaml, files: Files)
    requires Scan(yaml, files).Ok?
    ensures var found := Scan(yaml, files).value;
            found == InOrder(TableOf(found)) <==> NoneExtends(Slugs(found))
  {
    var found := Scan(yaml, files).value;
    ScanTable(yaml, files);
    FileOrderDistinct(found);
    LetteredSlugs(found);
    SlugOrderIff(Slugs(found));
    InOrderIff(found);
  }

  function Stripped(m: Table): Table {
    map s | s in m :: m[s].(content := RStrip(m[s].content))
  }

  lemma KeptIsStrippedIff(m: Table)
    ensures KeptAll(m) == Stripped(m) <==> forall s :: s in m ==> '\r' !in RStrip(m[s].content)
  {
    forall s | s in m ensures KeptAll(m)[s] == Stripped(m)[s] <==> '\r' !in RStrip(m[s].content) {
      NewlinesKeepsIff(RStrip(m[s].content));
    }
  }

  /** What is stored is what was given, right-stripped, exactly when no content has a carriage return left in it. */
  lemma ExportIsStrippedIff(yaml: Yaml, m: Table)
    requires Faithful(yaml) && Proper(m)
    ensures Scan(yaml, Payload(yaml, m)).Ok?
    ensures TableOf(Scan(yaml, Payload(yaml, m)).value) == Stripped(m) <==>
            forall s :: s in m ==> '\r' !in RStrip(m[s].content)
  {
    ScanOfPayload(yaml, m);
    KeptIsStrippedIff(m);
  }

  // ---- The staging order ----

  function StageOrder(m: Table): seq<string> {
    seq(|InOrder(m)|, i requires 0 <= i < |InOrder(m)| => FileName(InOrder(m)[i].slug)) + [INDEX]
  }

  lemma StageOrderMember(yaml: Yaml, m: Table, n: string)
    requires Proper(m)
    ensures n in StageOrder(m) <==> n in Payload(yaml, m)
  {
    if n == INDEX {
      assert StageOrder(m)[|InOrder(m)|] == INDEX;
    } else if n in Payload(yaml, m) {
      StagesFile(yaml, m, n);
    } else if n in StageOrder(m) {
      StagedIsFile(yaml, m, n);
    }
  }

  lemma StagesFile(yaml: Yaml, m: Table, n: string)
    requires n in Payload(yaml, m) && n != INDEX && Proper(m)
    ensures n in StageOrder(m)
  {
    var i := OrderedPlace(m, Stem(n));
    assert StageOrder(m)[i] == n;
  }

  lemma StagedIsFile(yaml: Yaml, m: Table, n: string)
    requires n in StageOrder(m) && n != INDEX && Proper(m)
    ensures n in Payload(yaml, m)
  {
    var i :| 0 <= i < |InOrder(m)| && StageOrder(m)[i] == n;
    OrderedRecord(m, i);
    PayloadFile(yaml, m, InOrder(m)[i].slug);
  }

  lemma StageOrderDistinct(m: Table, i: nat, j: nat)
    requires Proper(m) && i < j < |StageOrder(m)|
    ensures StageOrder(m)[i] != StageOrder(m)[j]
  {}

  lemma StageOrderLists(yaml: Yaml, m: Table)
    requires Proper(m)
    ensures Lists(StageOrder(m), Payload(yaml, m).Keys)
  {
    forall n ensures n in StageOrder(m) <==> n in Payload(yaml, m).Keys {
      StageOrderMember(yaml, m, n);
    }
    forall i, j | 0 <= i < j < |StageOrder(m)| ensures StageOrder(m)[i] != StageOrder(m)[j] {
      StageOrderDistinct(m, i, j);
    }
  }

  // ---- The store ----

  function SnapshotOf(yaml: Yaml, files: Files): Reply<Snapshot> {
    match Scan(yaml, files)
    case Err(e) => Err(e)
    case Ok(records) => Ok(Snapshot(records, Version(yaml, TableOf(records))))
  }

  /** The directory reads, and is at the version the caller saw, if it named one. */
  predicate Admits(yaml: Yaml, files: Files, expected: Option<seq<Byte>>) {
    && Scan(yaml, files).Ok?
    && (expected.None? || expected.value == Version(yaml, TableOf(Scan(yaml, files).value)))
  }

  lemma PreparedPayload(yaml: Yaml, maxByte: nat, records: seq<Record>)
    requires Prepared(yaml, maxByte, records).Ok?
    ensures Proper(TableOf(records)) && Prepared(yaml, maxByte, records).value == Payload(yaml, TableOf(records))
  {
    PreparedIff(yaml, maxByte, records);
  }

  lemma PayloadSnapshot(yaml: Yaml, m: Table)
    requires Faithful(yaml) && Proper(m)
    ensures var r := SnapshotOf(yaml, Payload(yaml, m)); r.Ok? && TableOf(r.value.records) == KeptAll(m)
  {
    ScanOfPayload(yaml, m);
  }

  lemma ReplacedSnapshot(yaml: Yaml, maxByte: nat, records: seq<Record>)
    requires Faithful(yaml) && Prepared(yaml, maxByte, records).Ok?
    ensures var r := SnapshotOf(yaml, Prepared(yaml, maxByte, records).value);
            r.Ok? && TableOf(r.value.records) == KeptAll(TableOf(records))
    ensures Lists(StageOrder(TableOf(records)), Prepared(yaml, maxByte, records).value.Keys)
  {
    PreparedPayload(yaml, maxByte, records);
    PayloadSnapshot(yaml, TableOf(records));
    StageOrderLists(yaml, TableOf(records));
  }

  // ---- Single-record updates as map updates ----

  ghost predicate Keyed(m: Table) {
    forall s :: s in m ==> m[s].slug == s
  }

  lemma KeyedInOrder(m: Table, i: nat)
    requires Keyed(m) && i < |InOrder(m)|
    ensures var r := InOrder(m)[i]; r.slug in m && m[r.slug] == r && r.slug == Sorted(m.Keys)[i]
  {}

  /** Listing a table and collecting the list again gives the table. */
  lemma TableOfInOrder(m: Table)
    requires Keyed(m)
    ensures TableOf(InOrder(m)) == m
  {
    forall s | s in TableOf(InOrder(m)) ensures s in m && TableOf(InOrder(m))[s] == m[s] {
      ListedIsIn(m, s);
    }
    forall s | s in m ensures s in TableOf(InOrder(m)) {
      InIsListed(m, s);
    }
  }

  lemma ListedIsIn(m: Table, s: string)
    requires Keyed(m) && s in TableOf(InOrder(m))
    ensures s in m && TableOf(InOrder(m))[s] == m[s]
  {
    var records := InOrder(m);
    TableKeys(records);
    var i :| 0 <= i < |records| && records[i] == TableOf(records)[s];
    KeyedInOrder(m, i);
  }

  lemma InIsListed(m: Table, s: string)
    requires Keyed(m) && s in m
    ensures s in TableOf(InOrder(m))
  {
    TableKeys(InOrder(m));
    var i := OrderedPlace(m, s);
    assert Slugs(InOrder(m))[i] == s;
  }

  /** The record of a slug in a list, as a search would return it. */
  function Find(records: seq<Record>, slug: string): (r: Option<Record>)
    ensures r.Some? ==> r.value in records && r.value.slug == slug
    ensures r.None? ==> forall i :: 0 <= i < |records| ==> records[i].slug != slug
  {
    if records == [] then None
    else if records[0].slug == slug then Some(records[0])
    else
      var r := Find(records[1..], slug);
      assert r.None? ==> forall i :: 1 <= i < |records| ==> records[i] == records[1..][i - 1];
      r
  }

  lemma FindIs(records: seq<Record>, slug: string)
    requires DistinctSlugs(records)
    ensures Find(records, slug) == if slug in TableOf(records) then Some(TableOf(records)[slug]) else None
  {
    TableKeys(records);
    if Find(records, slug).Some? {
      var i :| 0 <= i < |records| && records[i] == Find(records, slug).value;
      TableAt(records, i);
    }
  }

  lemma KeptWith(m: Table, r: Record)
    ensures KeptAll(m[r.slug := r]) == KeptAll(m)[r.slug := Kept(r)]
  {}

  lemma KeptWithout(m: Table, slug: string)
    ensures KeptAll(m - {slug}) == KeptAll(m) - {slug}
  {}

  lemma ScanKeyed(yaml: Yaml, files: Files)
    requires Scan(yaml, files).Ok?
    ensures Keyed(TableOf(Scan(yaml, files).value)) && DistinctSlugs(Scan(yaml, files).value)
  {
    ScanTable(yaml, files);
    FileOrderDistinct(Scan(yaml, files).value);
  }

  /** A crash in state c, while replacing what d held: recovery being redone, the old set, or the new set. */
  ghost predicate CrashSafe(d: MemoryDir.Dir, payload: Reply<Files>, c: MemoryDir.Dir) {
    || MemoryDir.MidRecovery(d, c)
    || MemoryDir.KeepsOld(MemoryDir.Outcome(d))(c)
    || MemoryDir.RollsBack(MemoryDir.Outcome(d))(c)
    || (payload.Ok? && MemoryDir.KeepsNew(payload.value)(c))
  }

  lemma StillCrashSafe(d: MemoryDir.Dir, payload: Reply<Files>, c: MemoryDir.Dir)
    requires CrashSafe(MemoryDir.Holding(MemoryDir.Outcome(d)), payload, c)
    ensures CrashSafe(d, payload, c)
  {}

  class Store {
    const yaml: Yaml
    const maxByte: nat
    const memory: MemoryDir.MemoryDirectory

    constructor (yaml: Yaml, maxByte: nat, memory: MemoryDir.MemoryDirectory)
      requires maxByte > 0
      ensures this.yaml == yaml && this.maxByte == maxByte && this.memory == memory
    {
      this.yaml, this.maxByte, this.memory := yaml, maxByte, memory;
    }

    /** What the next access will see, however the directory was left. */
    ghost function Seen(): Files
      reads memory
    {
      MemoryDir.Outcome(memory.dir)
    }

    /** _memory_dir: repair what a crash left before anything is read. */
    method Access() returns (ok: bool)
      modifies memory
      ensures old(memory.trace) <= memory.trace
      ensures memory.Since(|old(memory.trace)|, c => MemoryDir.MidRecovery(old(memory.dir), c))
      ensures ok ==> memory.dir == MemoryDir.Holding(old(Seen()))
      ensures memory.faults == old(memory.faults) + if ok then 0 else 1
    {
      ok := true;
      if !MemoryDir.Clean(memory.dir) {
        ok := memory.Recover();
      }
    }

    /** export. */
    method Export() returns (r: Reply<Snapshot>)
      modifies memory
      ensures r != Err(Faulted) ==> memory.dir == MemoryDir.Holding(old(Seen())) && r == SnapshotOf(yaml, old(Seen()))
      ensures memory.faults == old(memory.faults) + if r == Err(Faulted) then 1 else 0
    {
      var ok := Access();
      if !ok {
        return Err(Faulted);
      }
      var found := ScanFiles(yaml, memory.dir.active);
      match found
      case Err(e) => r := Err(e);
      case Ok(records) => r := Ok(Snapshot(records, Version(yaml, TableOf(records))));
    }

    /**
     * replace and _replace_locked. Success installs the whole new set; a stale version, an invalid or oversized set,
     * and a fault that rolled back leave the old one.
     */
    method Replace(records: seq<Record>, expected: Option<seq<Byte>>) returns (r: Reply<Snapshot>)
      requires Faithful(yaml)
      modifies memory
      ensures r.Ok? ==>
                && Prepared(yaml, maxByte, records) == Ok(Seen()) && memory.dir.active == Seen()
                && r == SnapshotOf(yaml, Seen()) && TableOf(r.value.records) == KeptAll(TableOf(records))
      ensures r.Ok? || r == Err(Broken) || r == Err(Raised) ==> Admits(yaml, old(Seen()), expected)
      ensures r == Err(Conflict) ==> Scan(yaml, old(Seen())).Ok? && !Admits(yaml, old(Seen()), expected)
      ensures r.Err? && !r.error.Faulted? && !r.error.Broken? ==> memory.dir == MemoryDir.Holding(old(Seen()))
      ensures r.Err? ==> !r.error.Missing?
      ensures memory.faults >= old(memory.faults)
      ensures memory.faults == old(memory.faults) ==>
                if !Scan(yaml, old(Seen())).Ok? then r == Err(Scan(yaml, old(Seen())).error)
                else if !Admits(yaml, old(Seen()), expected) then r == Err(Conflict)
                else if Prepared(yaml, maxByte, records).Err? then r == Err(Prepared(yaml, maxByte, records).error)
                else r.Ok?
      ensures old(memory.trace) <= memory.trace
      ensures forall i :: |old(memory.trace)| <= i < |memory.trace| ==>
                CrashSafe(old(memory.dir), Prepared(yaml, maxByte, records), memory.trace[i])
    {
      var ok := Access();
      // Recovering again, now with nothing to recover, is only an fsync.
      if ok {
        ok := memory.Sync();
      }
      if !ok {
        return Err(Faulted);
      }
      ghost var middle := memory.trace;
      r := Swap(records, expected);
      forall i | |middle| <= i < |memory.trace|
        ensures CrashSafe(old(memory.dir), Prepared(yaml, maxByte, records), memory.trace[i]) {
        StillCrashSafe(old(memory.dir), Prepared(yaml, maxByte, records), memory.trace[i]);
      }
    }

    /** Compare with the expected version, then install, in a directory with nothing to recover. */
    method Swap(records: seq<Record>, expected: Option<seq<Byte>>) returns (r: Reply<Snapshot>)
      requires Faithful(yaml) && MemoryDir.Clean(memory.dir)
      modifies memory
      ensures r.Ok? ==>
                && Prepared(yaml, maxByte, records) == Ok(Seen()) && memory.dir.active == Seen()
                && r == SnapshotOf(yaml, Seen()) && TableOf(r.value.records) == KeptAll(TableOf(records))
      ensures r.Ok? || r == Err(Broken) || r == Err(Raised) ==> Admits(yaml, old(memory.dir.active), expected)
      ensures r == Err(Conflict) ==>
                Scan(yaml, old(memory.dir.active)).Ok? && !Admits(yaml, old(memory.dir.active), expected)
      ensures r.Err? && !r.error.Broken? ==> memory.dir == old(memory.dir)
      ensures r.Err? ==> !r.error.Missing? && !r.error.Faulted?
      ensures memory.faults >= old(memory.faults)
      ensures memory.faults == old(memory.faults) ==>
                if !Scan(yaml, old(memory.dir.active)).Ok? then r == Err(Scan(yaml, old(memory.dir.active)).error)
                else if !Admits(yaml, old(memory.dir.active), expected) then r == Err(Conflict)
                else if Prepared(yaml, maxByte, records).Err? then r == Err(Prepared(yaml, maxByte, records).error)
                else r.Ok?
      ensures old(memory.trace) <= memory.trace
      ensures forall i :: |old(memory.trace)| <= i < |memory.trace| ==>
                CrashSafe(old(memory.dir), Prepared(yaml, maxByte, records), memory.trace[i])
    {
      var current := ScanFiles(yaml, memory.dir.active);
      if current.Err? {
        return Err(current.error);
      }
      if expected.Some? && expected.value != Version(yaml, TableOf(current.value)) {
        return Err(Conflict);
      }
      r := Install(records);
    }

    method Install(records: seq<Record>) returns (r: Reply<Snapshot>)
      requires Faithful(yaml) && MemoryDir.Clean(memory.dir)
      modifies memory
      ensures r.Ok? ==>
                && Prepared(yaml, maxByte, records) == Ok(Seen()) && memory.dir.active == Seen()
                && r == SnapshotOf(yaml, Seen()) && TableOf(r.value.records) == KeptAll(TableOf(records))
      ensures r.Err? && !r.error.Broken? ==> memory.dir == old(memory.dir)
      ensures r.Err? ==> !r.error.Missing? && !r.error.Conflict? && !r.error.Faulted?
      ensures memory.faults >= old(memory.faults)
      ensures memory.faults == old(memory.faults) ==>
                if Prepared(yaml, maxByte, records).Err? then r == Err(Prepared(yaml, maxByte, records).error)
                else r.Ok?
      ensures old(memory.trace) <= memory.trace
      ensures forall i :: |old(memory.trace)| <= i < |memory.trace| ==>
                CrashSafe(old(memory.dir), Prepared(yaml, maxByte, records), memory.trace[i])
    {
      var prepared := Prepare(yaml, maxByte, records);
      if prepared.Err? {
        return Err(prepared.error);
      }
      ReplacedSnapshot(yaml, maxByte, records);
      r := InstallFiles(StageOrder(TableOf(records)), prepared.value);
    }

    /** _replace_files, then the scan that answers the caller. */
    method InstallFiles(order: seq<string>, payload: Files) returns (r: Reply<Snapshot>)
      requires MemoryDir.Clean(memory.dir) && Lists(order, payload.Keys) && SnapshotOf(yaml, payload).Ok?
      modifies memory
      ensures r.Ok? ==> Seen() == payload && memory.dir.active == payload && r == SnapshotOf(yaml, payload)
      ensures r.Err? ==> r == Err(MemoryRecord.Raised) || r == Err(MemoryRecord.Broken)
      ensures r == Err(MemoryRecord.Raised) ==> memory.dir == old(memory.dir)
      ensures memory.faults >= old(memory.faults) && (memory.faults == old(memory.faults) ==> r.Ok?)
      ensures old(memory.trace) <= memory.trace
      ensures forall i :: |old(memory.trace)| <= i < |memory.trace| ==>
                CrashSafe(old(memory.dir), Ok(payload), memory.trace[i])
    {
      var result, _, _ := memory.ReplaceFiles(order, payload);
      match result
      case Raised => r := Err(MemoryRecord.Raised);
      case Broken => r := Err(MemoryRecord.Broken);
      case Replaced =>
        var stored := ScanFiles(yaml, memory.dir.active);
        r := Ok(Snapshot(stored.value, Version(yaml, TableOf(stored.value))));
    }

    /** write: the table with one entry set. */
    method Write(record: Record) returns (r: Reply<Record>)
      requires Faithful(yaml)
      modifies memory
      ensures r.Ok? ==>
                && r.value == Kept(record)
                && Scan(yaml, old(Seen())).Ok? && Scan(yaml, Seen()).Ok?
                && TableOf(Scan(yaml, Seen()).value) ==
                   KeptAll(TableOf(Scan(yaml, old(Seen())).value))[record.slug := Kept(record)]
      ensures memory.faults == old(memory.faults) ==>
                (r.Ok? <==>
                 && Scan(yaml, old(Seen())).Ok?
                 && Prepared(yaml, maxByte, InOrder(TableOf(Scan(yaml, old(Seen())).value)[record.slug := record])).Ok?)
      ensures r.Err? && !r.error.Faulted? && !r.error.Broken? ==> memory.dir == MemoryDir.Holding(old(Seen()))
    {
      var ok := Access();
      if !ok {
        return Err(Faulted);
      }
      var current := ScanFiles(yaml, memory.dir.active);
      if current.Err? {
        return Err(current.error);
      }
      ScanKeyed(yaml, memory.dir.active);
      var m := TableOf(current.value)[record.slug := record];
      TableOfInOrder(m);
      KeptWith(TableOf(current.value), record);
      var stored := Replace(InOrder(m), None);
      if stored.Err? {
        return Err(stored.error);
      }
      ScanKeyed(yaml, memory.dir.active);
      FindIs(stored.value.records, record.slug);
      return Ok(Find(stored.value.records, record.slug).value);
    }

    /** delete: the table with one entry gone, or an error when there is none. */
    method Delete(slug: string) returns (r: Reply<()>)
      requires Faithful(yaml)
      modifies memory
      ensures r.Ok? ==>
                && Scan(yaml, old(Seen())).Ok? && Scan(yaml, Seen()).Ok?
                && slug in TableOf(Scan(yaml, old(Seen())).value)
                && TableOf(Scan(yaml, Seen()).value) == KeptAll(TableOf(Scan(yaml, old(Seen())).value)) - {slug}
      ensures memory.faults == old(memory.faults) ==>
                (r.Ok? <==>
                 && IsSlug(slug) && Scan(yaml, old(Seen())).Ok? && slug in TableOf(Scan(yaml, old(Seen())).value)
                 && Prepared(yaml, maxByte, InOrder(TableOf(Scan(yaml, old(Seen())).value) - {slug})).Ok?)
      ensures r == Err(Missing) ==> Scan(yaml, old(Seen())).Ok? && slug !in TableOf(Scan(yaml, old(Seen())).value)
      ensures r.Err? && !r.error.Faulted? && !r.error.Broken? && IsSlug(slug) ==>
                memory.dir == MemoryDir.Holding(old(Seen()))
      ensures !IsSlug(slug) ==> r == Err(Invalid) && memory.dir == old(memory.dir)
    {
      if !IsSlug(slug) {
        return Err(Invalid);
      }
      var ok := Access();
      if !ok {
        return Err(Faulted);
      }
      var current := ScanFiles(yaml, memory.dir.active);
      if current.Err? {
        return Err(current.error);
      }
      ScanKeyed(yaml, memory.dir.active);
      FindIs(current.value, slug);
      if Find(current.value, slug).None? {
        return Err(Missing);
      }
      var m := TableOf(current.value) - {slug};
      TableOfInOrder(m);
      KeptWithout(TableOf(current.value), slug);
      var stored := Replace(InOrder(m), None);
      r := if stored.Err? then Err(stored.error) else Ok(());
    }
  }

  // ---- The worker ----

  /** A snapshot some reader was given. */
  ghost predicate Genuine(yaml: Yaml, snapshot: Snapshot) {
    exists files :: SnapshotOf(yaml, files) == Ok(snapshot)
  }

  /** The same records, up to right-stripping. */
  ghost predicate SameSet(yaml: Yaml, files: Files, snapshot: Snapshot) {
    Scan(yaml, files).Ok? && KeptAll(TableOf(Scan(yaml, files).value)) == KeptAll(TableOf(snapshot.records))
  }

  ghost predicate FilesSized(yaml: Yaml, files: Files) {
    Scan(yaml, files).Ok? ==> AllSized(yaml, TableOf(Scan(yaml, files).value))
  }

  /** A matching version is a matching set. */
  lemma AdmittedIsSame(yaml: Yaml, files: Files, snapshot: Snapshot)
    requires Faithful(yaml) && Genuine(yaml, snapshot) && AllSized(yaml, TableOf(snapshot.records))
    requires Admits(yaml, files, Some(snapshot.version)) && FilesSized(yaml, files)
    ensures SameSet(yaml, files, snapshot)
  {
    var from :| SnapshotOf(yaml, from) == Ok(snapshot);
    ScanTable(yaml, from);
    ScanTable(yaml, files);
    VersionIff(yaml, TableOf(Scan(yaml, files).value), TableOf(snapshot.records));
  }

  lemma Matched(yaml: Yaml, files: Files, snapshot: Snapshot)
    requires Faithful(yaml) && Genuine(yaml, snapshot) && AllSized(yaml, TableOf(snapshot.records))
    ensures Admits(yaml, files, Some(snapshot.version)) && FilesSized(yaml, files) ==> SameSet(yaml, files, snapshot)
  {
    if Admits(yaml, files, Some(snapshot.version)) && FilesSized(yaml, files) {
      AdmittedIsSame(yaml, files, snapshot);
    }
  }

  class Worker {
    const store: Store

    constructor (store: Store)
      ensures this.store == store
    {
      this.store := store;
    }

    /** Other callers and crashes, between two calls of this one. */
    method Interfere()
      modifies store.memory
    {
      store.memory.dir := *;
      store.memory.trace := store.memory.trace + [store.memory.dir];
    }

    /**
     * _replace_with_rollback. `first` and `second` are the sets found by the replacement and by the rollback. Either
     * call goes past its version check only on the set of the snapshot; a concurrent writer's different set stays.
     */
    method ReplaceWithRollback(replacement: seq<Record>, snapshot: Snapshot)
      returns (r: Reply<Snapshot>, undone: Option<Reply<Snapshot>>,
               ghost first: Files, ghost found: MemoryDir.Dir, ghost second: Files)
      requires Faithful(store.yaml) && Genuine(store.yaml, snapshot)
      requires AllSized(store.yaml, TableOf(snapshot.records))
      modifies store.memory
      ensures r.Ok? ==> undone.None? && TableOf(r.value.records) == KeptAll(TableOf(replacement))
      ensures (r.Ok? || r == Err(Broken)) && FilesSized(store.yaml, first) ==> SameSet(store.yaml, first, snapshot)
      ensures r == Err(Conflict) ==> undone.None? && store.memory.dir == MemoryDir.Holding(first)
      ensures undone.Some? <==> r.Err? && r != Err(Conflict)
      ensures r.Err? && !r.error.Faulted? && !r.error.Broken? ==> found == MemoryDir.Holding(first)
      ensures undone.Some? && (undone.value.Ok? || undone.value == Err(Broken)) && FilesSized(store.yaml, second) ==>
                SameSet(store.yaml, second, snapshot)
      ensures undone.Some? && undone.value.Ok? ==>
                TableOf(undone.value.value.records) == KeptAll(TableOf(snapshot.records))
      ensures undone == Some(Err(Conflict)) ==> store.memory.dir == MemoryDir.Holding(second)
    {
      undone, second := None, map[];
      Interfere();
      first := store.Seen();
      r := store.Replace(replacement, Some(snapshot.version));
      found := store.memory.dir;
      Matched(store.yaml, first, snapshot);
      if r.Err? && r.error != Conflict {
        Interfere();
        second := store.Seen();
        var back := store.Replace(snapshot.records, Some(snapshot.version));
        undone := Some(back);
        Matched(store.yaml, second, snapshot);
      }
    }
  }
}
