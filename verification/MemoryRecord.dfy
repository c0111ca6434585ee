/**
 * One record and its file (src/app/memory/store.py, _serialize, _read_record, the validators).
 * The YAML library is a parameter: all that is taken of it is that it gives back what it was given.
 */
module MemoryRecord {
  import opened Common
  import opened Utf8

  datatype Header = Header(name: string, description: string, kind: string)

  datatype Record = Record(slug: string, header: Header, content: string)

  datatype Error = Invalid | Capacity | Conflict | Missing | Faulted | Raised | Broken

  datatype Reply<+T> = Ok(value: T) | Err(error: Error)

  const MAX_CONTENT := 100_000

  // ---- Characters ----

  /** The characters str.strip removes. */
  predicate IsSpace(c: char) {
    var n := c as int;
    0x9 <= n <= 0xD || 0x1C <= n <= 0x20 || n == 0x85 || n == 0xA0 || n == 0x1680 || 0x2000 <= n <= 0x200A
    || n == 0x2028 || n == 0x2029 || n == 0x202F || n == 0x205F || n == 0x3000
  }

  predicate Blank(s: string) {
    forall i :: 0 <= i < |s| ==> IsSpace(s[i])
  }

  function RStrip(s: string): (r: string)
    ensures r <= s && Blank(s[|r|..])
    ensures r != "" ==> !IsSpace(r[|r| - 1])
  {
    if s == "" || !IsSpace(s[|s| - 1]) then s
    else
      var r := RStrip(s[..|s| - 1]);
      assert forall i :: |r| <= i < |s| - 1 ==> s[i] == s[..|s| - 1][|r|..][i - |r|];
      r
  }

  /** Text-mode reading: CR LF and a lone CR both become LF. */
  function Newlines(s: string): (r: string)
    ensures '\r' !in r && |r| <= |s|
  {
    if s == "" then "" else [if s[0] == '\r' then '\n' else s[0]] + Newlines(AfterFirst(s))
  }

  /** What follows the first character, or the first CR LF. */
  function AfterFirst(s: string): (r: string)
    requires s != ""
    ensures |r| < |s| && r == s[|s| - |r|..]
  {
    if s[0] == '\r' && |s| > 1 && s[1] == '\n' then s[2..] else s[1..]
  }

  /** Cutting here does not cut a CR LF in two. */
  predicate Apart(a: string, b: string) {
    a == "" || b == "" || a[|a| - 1] != '\r' || b[0] != '\n'
  }

  lemma AfterFirstAppend(a: string, b: string)
    requires a != "" && Apart(a, b)
    ensures AfterFirst(a + b) == AfterFirst(a) + b && Apart(AfterFirst(a), b)
  {
    assert (a + b)[0] == a[0] && (|a| > 1 ==> (a + b)[1] == a[1]) && (|a| == 1 && b != "" ==> (a + b)[1] == b[0]);
    assert (a + b)[1..] == a[1..] + b;
    assert |a| > 1 ==> (a + b)[2..] == a[2..] + b;
  }

  lemma {:induction false} NewlinesKeeps(s: string)
    requires '\r' !in s
    ensures Newlines(s) == s
  {
    if s == "" {
    } else {
      NewlinesKeeps(s[1..]);
      assert s == [s[0]] + s[1..];
    }
  }

  lemma NewlinesKeepsIff(s: string)
    ensures Newlines(s) == s <==> '\r' !in s
  {
    if '\r' !in s {
      NewlinesKeeps(s);
    }
  }

  lemma {:induction false} NewlinesAppend(a: string, b: string)
    requires Apart(a, b)
    ensures Newlines(a + b) == Newlines(a) + Newlines(b)
  {
    if a == "" {
      assert a + b == b;
    } else {
      var t := AfterFirst(a);
      NewlinesAppend(t, b);
      AfterFirstAppend(a, b);
      NewlinesStep(a + b, t + b);
      NewlinesStep(a, t);
      Grouped([if a[0] == '\r' then '\n' else a[0]], Newlines(t), Newlines(b));
      assert (a + b)[0] == a[0];
    }
  }

  /** Wherever it stands, CR LF becomes one LF, and so does a CR on its own; every other character stays. */
  lemma NewlinesTranslates(a: string, b: string, c: char)
    ensures Newlines(a + "\r\n" + b) == Newlines(a) + "\n" + Newlines(b)
    ensures b == "" || b[0] != '\n' ==> Newlines(a + "\r" + b) == Newlines(a) + "\n" + Newlines(b)
    ensures c != '\r' && Apart(a, [c]) ==> Newlines(a + [c] + b) == Newlines(a) + [c] + Newlines(b)
  {
    NewlinesAround(a, "\r\n", b);
    assert Newlines("\r\n") == "\n" + Newlines(AfterFirst("\r\n")) == "\n";
    if b == "" || b[0] != '\n' {
      NewlinesAround(a, "\r", b);
      assert Newlines("\r") == "\n";
    }
    if c != '\r' && Apart(a, [c]) {
      NewlinesAround(a, [c], b);
      assert Newlines([c]) == [c];
    }
  }

  lemma NewlinesAround(a: string, mid: string, b: string)
    requires mid != "" && Apart(a, mid) && Apart(mid, b)
    ensures Newlines(a + mid + b) == Newlines(a) + Newlines(mid) + Newlines(b)
  {
    assert (a + mid)[|a + mid| - 1] == mid[|mid| - 1];
    NewlinesAppend(a, mid);
    NewlinesAppend(a + mid, b);
  }

  lemma NewlinesStep(s: string, rest: string)
    requires s != "" && AfterFirst(s) == rest
    ensures Newlines(s) == [if s[0] == '\r' then '\n' else s[0]] + Newlines(rest)
  {}

  /** A stretch that does not end in white space still does not after translation, and stays non-blank. */
  lemma {:induction false} NewlinesTrimmed(s: string)
    requires s != "" && !IsSpace(s[|s| - 1])
    ensures var r := Newlines(s); r != "" && r[|r| - 1] == s[|s| - 1]
  {
    var t := AfterFirst(s);
    if t == "" {
    } else {
      NewlinesTrimmed(t);
    }
  }

  lemma RStripKeeps(s: string)
    requires s == "" || !IsSpace(s[|s| - 1])
    ensures RStrip(s) == s
  {}

  // ---- Encoding ----

  function Codes(s: string): (r: seq<Scalar>)
    ensures |r| == |s| && forall i :: 0 <= i < |s| ==> r[i] == s[i] as int
  {
    seq(|s|, i requires 0 <= i < |s| => s[i] as int)
  }

  function Chars(codes: seq<Scalar>): (r: string)
    ensures |r| == |codes| && forall i :: 0 <= i < |r| ==> r[i] as int == codes[i]
  {
    seq(|codes|, i requires 0 <= i < |codes| => codes[i] as char)
  }

  function Bytes(s: string): seq<Byte> {
    EncodeAll(Codes(s))
  }

  function Text(b: seq<Byte>): Option<string> {
    match Decode(b)
    case None => None
    case Some(codes) => Some(Chars(codes))
  }

  lemma TextOfBytes(s: string)
    ensures Text(Bytes(s)) == Some(s)
  {
    DecodeOfEncode(Codes(s));
    assert Chars(Codes(s)) == s;
  }

  lemma BytesInjective(a: string, b: string)
    requires Bytes(a) == Bytes(b)
    ensures a == b
  {
    TextOfBytes(a);
    TextOfBytes(b);
  }

  // ---- Validation ----

  predicate SlugChar(c: char) {
    'a' <= c <= 'z' || '0' <= c <= '9'
  }

  /** Runs of lower-case letters and digits joined by single hyphens. */
  predicate IsSlug(s: string) {
    && s != ""
    && SlugChar(s[0]) && SlugChar(s[|s| - 1])
    && (forall i :: 0 <= i < |s| ==> SlugChar(s[i]) || s[i] == '-')
    && (forall i :: 0 <= i < |s| - 1 ==> s[i] != '-' || s[i + 1] != '-')
  }

  const ALPHABET := "abcdefghijklmnopqrstuvwxyz0123456789"

  lemma SlugCharIff(c: char)
    ensures SlugChar(c) <==> c in ALPHABET
  {
    assert forall i :: 0 <= i < 26 ==> ALPHABET[i] as int == 'a' as int + i;
    assert forall i :: 26 <= i < 36 ==> ALPHABET[i] as int == '0' as int + i - 26;
    if 'a' <= c <= 'z' {
      assert ALPHABET[c as int - 'a' as int] == c;
    } else if '0' <= c <= '9' {
      assert ALPHABET[c as int - '0' as int + 26] == c;
    }
  }

  /** A run of lower-case letters and digits, not empty. */
  predicate SlugPart(s: string) {
    s != "" && forall i :: 0 <= i < |s| ==> SlugChar(s[i])
  }

  function Hyphenated(parts: seq<string>): string
    requires parts != []
  {
    if |parts| == 1 then parts[0] else Hyphenated(parts[..|parts| - 1]) + "-" + parts[|parts| - 1]
  }

  ghost predicate SlugParts(parts: seq<string>) {
    parts != [] && forall i :: 0 <= i < |parts| ==> SlugPart(parts[i])
  }

  lemma PartIsSlug(s: string)
    requires SlugPart(s)
    ensures IsSlug(s)
  {}

  lemma SlugAndPart(a: string, part: string)
    requires IsSlug(a) && SlugPart(part)
    ensures IsSlug(a + "-" + part)
  {
    var s := a + "-" + part;
    assert s[0] == a[0] && s[|s| - 1] == part[|part| - 1];
    assert forall i :: 0 <= i < |s| ==> s[i] == if i < |a| then a[i] else if i == |a| then '-' else part[i - |a| - 1];
    assert a[|a| - 1] != '-' && part[0] != '-';
  }

  lemma {:induction false} HyphenatedIsSlug(parts: seq<string>)
    requires SlugParts(parts)
    ensures IsSlug(Hyphenated(parts))
  {
    if |parts| == 1 {
      PartIsSlug(parts[0]);
    } else {
      HyphenatedIsSlug(parts[..|parts| - 1]);
      SlugAndPart(Hyphenated(parts[..|parts| - 1]), parts[|parts| - 1]);
    }
  }

  /** The part after the last hyphen; k is where it starts. */
  lemma LastPart(s: string) returns (k: nat)
    requires IsSlug(s)
    ensures k < |s| && SlugPart(s[k..])
    ensures k == 0 || (k > 1 && s[k - 1] == '-' && IsSlug(s[..k - 1]))
  {
    k := |s| - 1;
    while k > 0 && s[k - 1] != '-'
      invariant 0 <= k < |s| && forall i :: k <= i < |s| ==> SlugChar(s[i])
    {
      k := k - 1;
    }
    if k > 0 {
      assert SlugChar(s[0]) && s[0] != '-';
      SlugBefore(s, k - 1);
    }
  }

  lemma SlugBefore(s: string, n: nat)
    requires IsSlug(s) && 0 < n < |s| && s[n] == '-'
    ensures IsSlug(s[..n])
  {
    assert s[n - 1] != '-';
  }

  lemma {:induction false} SlugHasParts(s: string) returns (parts: seq<string>)
    requires IsSlug(s)
    ensures SlugParts(parts) && Hyphenated(parts) == s
    decreases |s|
  {
    var k := LastPart(s);
    if k == 0 {
      parts := [s];
      assert s[0..] == s;
    } else {
      var before := SlugHasParts(s[..k - 1]);
      parts := before + [s[k..]];
      assert parts[..|before|] == before;
      assert s == s[..k - 1] + "-" + s[k..];
    }
  }

  /** A slug is one or more nonempty parts joined by single hyphens. */
  lemma SlugIff(s: string)
    ensures IsSlug(s) <==> exists parts :: SlugParts(parts) && Hyphenated(parts) == s
  {
    if IsSlug(s) {
      var parts := SlugHasParts(s);
    }
    if parts :| SlugParts(parts) && Hyphenated(parts) == s {
      HyphenatedIsSlug(parts);
    }
  }

  predicate Plain(h: Header) {
    && !Blank(h.name) && !Blank(h.description)
    && '\n' !in h.name && '\n' !in h.description
    && h.kind in {"user", "feedback", "project", "reference"}
  }

  predicate Wellformed(r: Record) {
    IsSlug(r.slug) && Plain(r.header) && !Blank(r.content) && |r.content| <= MAX_CONTENT
  }

  /** One line with something on it. */
  predicate Line(s: string) {
    (exists i :: 0 <= i < |s| && !IsSpace(s[i])) && forall i :: 0 <= i < |s| ==> s[i] != '\n'
  }

  /** What validating a record raises, if anything: length is only looked at once the rest is right. */
  function Fault(r: Record): (e: Option<Error>)
    ensures e == None <==> Wellformed(r)
    ensures e == None <==>
            && IsSlug(r.slug) && Line(r.header.name) && Line(r.header.description)
            && (r.header.kind == "user" || r.header.kind == "feedback" || r.header.kind == "project"
                || r.header.kind == "reference")
            && (exists i :: 0 <= i < |r.content| && !IsSpace(r.content[i])) && |r.content| <= 100_000
    ensures e == Some(Capacity) <==> IsSlug(r.slug) && Plain(r.header) && |r.content| > MAX_CONTENT && !Blank(r.content)
    ensures e.Some? ==> e.value.Invalid? || e.value.Capacity?
  {
    if !(IsSlug(r.slug) && Plain(r.header) && !Blank(r.content)) then Some(Invalid)
    else if |r.content| > MAX_CONTENT then Some(Capacity)
    else None
  }

  // ---- The file of a record ----

  datatype Yaml = Yaml(dump: Header -> string, load: string -> Option<Header>)

  const FENCE := "\n---\n"

  predicate MarkAt(s: string, mark: string, i: nat) {
    i + |mark| <= |s| && s[i..i + |mark|] == mark
  }

  /** Where the first mark starts, or the length if there is none. */
  function FirstMark(s: string, mark: string): (i: nat)
    requires |mark| == 5
    ensures i <= |s|
    ensures i < |s| ==> MarkAt(s, mark, i)
    ensures forall j :: 0 <= j < i ==> !MarkAt(s, mark, j)
  {
    if |s| < 5 then |s|
    else if s[..5] == mark then 0
    else
      var i := FirstMark(s[1..], mark);
      MarkLater(s, mark);
      1 + i
  }

  lemma MarkLater(s: string, mark: string)
    requires s != ""
    ensures forall j :: 1 <= j < |s| ==> (MarkAt(s, mark, j) <==> MarkAt(s[1..], mark, j - 1))
  {
    forall j | 1 <= j < |s| ensures MarkAt(s, mark, j) <==> MarkAt(s[1..], mark, j - 1) {
      if j + |mark| <= |s| {
        assert s[1..][j - 1..j - 1 + |mark|] == s[j..j + |mark|];
      }
    }
  }

  function Fence(s: string): (i: nat)
    ensures i <= |s|
    ensures i < |s| ==> MarkAt(s, FENCE, i)
    ensures forall j :: 0 <= j < i ==> !MarkAt(s, FENCE, j)
  {
    FirstMark(s, FENCE)
  }

  lemma {:induction false} MarkExtends(a: string, b: string, mark: string)
    requires |mark| == 5 && FirstMark(a, mark) < |a|
    ensures FirstMark(a + b, mark) == FirstMark(a, mark)
  {
    assert (a + b)[..5] == a[..5];
    if a[..5] == mark {
    } else {
      MarkExtends(a[1..], b, mark);
      assert (a + b)[1..] == a[1..] + b;
    }
  }

  lemma FenceExtends(a: string, b: string)
    requires Fence(a) < |a|
    ensures Fence(a + b) == Fence(a)
  {
    MarkExtends(a, b, FENCE);
  }

  /** What is taken of YAML: one closed block, no carriage return, no fence inside, and loading inverts dumping. */
  ghost predicate DumpsWell(yaml: Yaml, h: Header) {
    var front := yaml.dump(h);
    && front != "" && front[|front| - 1] == '\n' && '\r' !in front
    && Fence(front + "---\n") == |front| - 1
    && yaml.load(front[..|front| - 1]) == Some(h)
  }

  ghost predicate Faithful(yaml: Yaml) {
    forall h :: Plain(h) ==> DumpsWell(yaml, h)
  }

  function Serialize(yaml: Yaml, r: Record): string {
    "---\n" + yaml.dump(r.header) + "---\n\n" + RStrip(r.content) + "\n"
  }

  function DropFirst(s: string): string {
    if s != "" && s[0] == '\n' then s[1..] else s
  }

  function DropLast(s: string): string {
    if s != "" && s[|s| - 1] == '\n' then s[..|s| - 1] else s
  }

  /** Reading a record file: every malformed shape is an error, never a partial record. */
  function ReadRecord(yaml: Yaml, slug: string, b: seq<Byte>): (r: Reply<Record>)
    ensures r.Err? ==> r.error.Invalid? || r.error.Capacity?
  {
    match Text(b)
    case None => Err(Invalid)
    case Some(text) =>
      var raw := Newlines(text);
      if |raw| < 4 || raw[..4] != "---\n" then Err(Invalid) else ReadBody(yaml, slug, raw[4..])
  }

  function ReadBody(yaml: Yaml, slug: string, body: string): (r: Reply<Record>)
    ensures r.Err? ==> r.error.Invalid? || r.error.Capacity?
  {
    var at := Fence(body);
    if at == |body| then Err(Invalid)
    else
      match yaml.load(body[..at])
      case None => Err(Invalid)
      case Some(header) =>
        var r := Record(slug, header, DropLast(DropFirst(body[at + 5..])));
        match Fault(r) case None => Ok(r) case Some(e) => Err(e)
  }

  /** The record as the store keeps it. */
  function Kept(r: Record): Record {
    r.(content := Newlines(RStrip(r.content)))
  }

  lemma KeptContent(r: Record)
    requires Wellformed(r)
    ensures var c := RStrip(r.content); c != "" && !IsSpace(c[|c| - 1])
    ensures Wellformed(Kept(r)) && Kept(Kept(r)) == Kept(r)
  {
    var c := RStrip(r.content);
    NonBlankStrip(r.content);
    NewlinesTrimmed(c);
    var k := Newlines(c);
    assert !IsSpace(k[|k| - 1]);
    RStripKeeps(k);
    NewlinesKeeps(k);
  }

  lemma NonBlankStrip(s: string)
    requires !Blank(s)
    ensures RStrip(s) != ""
  {}

  lemma NewlinesBetween(head: string, c: string, tail: string)
    requires '\r' !in head && '\r' !in tail && c != "" && !IsSpace(c[|c| - 1])
    ensures Newlines(head + c + tail) == head + Newlines(c) + tail
  {
    assert (head + c)[|head + c| - 1] == c[|c| - 1];
    NewlinesAppend(head + c, tail);
    assert head != "" ==> head[|head| - 1] in head;
    NewlinesAppend(head, c);
    NewlinesKeeps(head);
    NewlinesKeeps(tail);
  }

  /** A front whose first fence spans its last line end and the mark is cut off there, whatever follows. */
  lemma SplitBody(front: string, mark: string, rest: string)
    requires front != "" && |mark| == 4 && Fence(front + mark) == |front| - 1
    ensures var body := front + mark + rest;
            Fence(body) == |front| - 1 && body[..|front| - 1] == front[..|front| - 1] && body[|front| + 4..] == rest
  {
    FenceExtends(front + mark, rest);
    var body := front + mark + rest;
    assert body[..|front| - 1] == front[..|front| - 1];
    assert body[|front| + 4..] == rest;
  }

  lemma DropBoth(c: string)
    ensures DropLast(DropFirst("\n" + c + "\n")) == c
  {}

  /** Reading a body whose front matter is well formed. */
  lemma ReadOfBody(yaml: Yaml, slug: string, h: Header, rest: string)
    requires DumpsWell(yaml, h) && Wellformed(Record(slug, h, DropLast(DropFirst(rest))))
    ensures ReadBody(yaml, slug, yaml.dump(h) + "---\n" + rest) == Ok(Record(slug, h, DropLast(DropFirst(rest))))
  {
    SplitBody(yaml.dump(h), "---\n", rest);
  }

  lemma ReadOfText(yaml: Yaml, slug: string, b: seq<Byte>, text: string, body: string)
    requires Text(b) == Some(text) && Newlines(text) == "---\n" + body
    ensures ReadRecord(yaml, slug, b) == ReadBody(yaml, slug, body)
  {
    Opening(body);
  }

  lemma Opening(body: string)
    ensures ("---\n" + body)[..4] == "---\n" && ("---\n" + body)[4..] == body
  {}

  /** Writing then reading: the content right-stripped, with line ends translated. */
  lemma ReadOfSerialize(yaml: Yaml, r: Record)
    requires Faithful(yaml) && Wellformed(r)
    ensures ReadRecord(yaml, r.slug, Bytes(Serialize(yaml, r))) == Ok(Kept(r))
  {
    KeptContent(r);
    assert DumpsWell(yaml, r.header);
    TextOfBytes(Serialize(yaml, r));
    TranslatedSerialize(yaml, r);
    DropBoth(Kept(r).content);
    var rest := "\n" + Kept(r).content + "\n";
    ReadOfBody(yaml, r.slug, r.header, rest);
    ReadOfText(yaml, r.slug, Bytes(Serialize(yaml, r)), Serialize(yaml, r), yaml.dump(r.header) + "---\n" + rest);
  }

  lemma TranslatedSerialize(yaml: Yaml, r: Record)
    requires DumpsWell(yaml, r.header) && Wellformed(r)
    ensures Newlines(Serialize(yaml, r)) == "---\n" + (yaml.dump(r.header) + "---\n" + ("\n" + Kept(r).content + "\n"))
  {
    KeptContent(r);
    TranslatedText(yaml.dump(r.header), RStrip(r.content));
  }

  lemma TranslatedText(front: string, c: string)
    requires '\r' !in front && c != "" && !IsSpace(c[|c| - 1])
    ensures Newlines("---\n" + front + "---\n\n" + c + "\n") ==
            "---\n" + (front + "---\n" + ("\n" + Newlines(c) + "\n"))
  {
    NoReturn("---\n", front, "---\n\n");
    NewlinesBetween("---\n" + front + "---\n\n", c, "\n");
    Regroup(front, Newlines(c));
  }

  lemma NoReturn(a: string, b: string, c: string)
    requires '\r' !in a && '\r' !in b && '\r' !in c
    ensures '\r' !in a + b + c
  {}

  lemma Regroup(front: string, c: string)
    ensures "---\n" + front + "---\n\n" + c + "\n" == "---\n" + (front + "---\n" + ("\n" + c + "\n"))
  {}

  /** The round trip is exact up to right-stripping exactly for content with no carriage return left in it. */
  lemma RoundTripIff(yaml: Yaml, r: Record)
    requires Faithful(yaml) && Wellformed(r)
    ensures ReadRecord(yaml, r.slug, Bytes(Serialize(yaml, r))) == Ok(r.(content := RStrip(r.content)))
       <==> '\r' !in RStrip(r.content)
  {
    ReadOfSerialize(yaml, r);
    NewlinesKeepsIff(RStrip(r.content));
  }

  /** What comes back from disk is well formed and free of carriage returns. */
  lemma ReadIsWellformed(yaml: Yaml, slug: string, b: seq<Byte>)
    requires ReadRecord(yaml, slug, b).Ok?
    ensures var r := ReadRecord(yaml, slug, b).value; r.slug == slug && Wellformed(r) && '\r' !in r.content
  {
    BodyIsWellformed(yaml, slug, Newlines(Text(b).value)[4..]);
  }

  lemma BodyIsWellformed(yaml: Yaml, slug: string, body: string)
    requires '\r' !in body && ReadBody(yaml, slug, body).Ok?
    ensures var r := ReadBody(yaml, slug, body).value; r.slug == slug && Wellformed(r) && '\r' !in r.content
  {}

}
