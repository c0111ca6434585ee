/** Event ids (src/app/run/log.py, src/app/run/archive.py): "ms-seq" strings, their order, and the packed 64-bit key. */
module EventId {

  import opened Common

  /** A parsed id. */
  datatype Id = Id(ms: nat, sq: nat)

  predicate Less(a: Id, b: Id) {
    a.ms < b.ms || (a.ms == b.ms && a.sq < b.sq)
  }

  // ---- Text form ----

  predicate IsDigit(c: char) { '0' <= c <= '9' }

  function DigitValue(c: char): nat
    requires IsDigit(c)
  {
    c as int - '0' as int
  }

  function Decimal(n: nat): (s: string)
    ensures s != "" && forall i :: 0 <= i < |s| ==> IsDigit(s[i])
  {
    if n < 10 then ['0' + n as char] else Decimal(n / 10) + ['0' + (n % 10) as char]
  }

  function Number(s: string): nat
    requires forall i :: 0 <= i < |s| ==> IsDigit(s[i])
  {
    if s == "" then 0 else Number(s[..|s| - 1]) * 10 + DigitValue(s[|s| - 1])
  }

  lemma {:induction false} NumberOfDecimal(n: nat)
    ensures Number(Decimal(n)) == n
  {
    var s := Decimal(n);
    if n >= 10 {
      NumberOfDecimal(n / 10);
      assert s[..|s| - 1] == Decimal(n / 10);
    } else {
      assert s[..|s| - 1] == "";
    }
  }

  /** Position of the first separator, or the length. */
  function Separator(s: string): (i: nat)
    ensures i <= |s|
    ensures forall j :: 0 <= j < i ==> s[j] != '-'
    ensures i < |s| ==> s[i] == '-'
  {
    if s == "" || s[0] == '-' then 0
    else
      var i := 1 + Separator(s[1..]);
      assert forall j :: 1 <= j < i ==> s[j] == s[1..][j - 1];
      i
  }

  /** None is the rejection of a malformed cursor. */
  function ParseId(s: string): Option<Id> {
    var i := Separator(s);
    if i == |s| then None
    else
      var ms, sq := s[..i], s[i + 1..];
      if || ms == "" || sq == "" || (exists j :: 0 <= j < |ms| && !IsDigit(ms[j]))
         || (exists j :: 0 <= j < |sq| && !IsDigit(sq[j]))
      then None
      else Some(Id(Number(ms), Number(sq)))
  }

  function ShowId(id: Id): string {
    Decimal(id.ms) + "-" + Decimal(id.sq)
  }

  lemma SeparatorOfJoin(a: string, b: string)
    requires forall j :: 0 <= j < |a| ==> IsDigit(a[j])
    ensures Separator(a + "-" + b) == |a|
  {
    var s := a + "-" + b;
    assert s[|a|] == '-';
    assert forall j :: 0 <= j < |a| ==> s[j] == a[j];
  }

  /** Every id the system prints is accepted back unchanged. */
  lemma ParseOfShow(id: Id)
    ensures ParseId(ShowId(id)) == Some(id)
  {
    ParseOfJoin(Decimal(id.ms), Decimal(id.sq));
    NumberOfDecimal(id.ms);
    NumberOfDecimal(id.sq);
  }

  predicate Digits(s: string) {
    s != "" && forall j :: 0 <= j < |s| ==> IsDigit(s[j])
  }

  /** A cursor is accepted exactly when it is two runs of digits with one hyphen between them, and as their numbers. */
  lemma ParseIff(s: string, id: Id)
    ensures ParseId(s) == Some(id) <==>
            exists ms, sq :: Digits(ms) && Digits(sq) && s == ms + "-" + sq && id == Id(Number(ms), Number(sq))
  {
    if ParseId(s) == Some(id) {
      var i := Separator(s);
      assert s == s[..i] + "-" + s[i + 1..];
      assert Digits(s[..i]) && Digits(s[i + 1..]);
    }
    if ms, sq :| Digits(ms) && Digits(sq) && s == ms + "-" + sq && id == Id(Number(ms), Number(sq)) {
      ParseOfJoin(ms, sq);
    }
  }

  lemma ParseOfJoin(ms: string, sq: string)
    requires Digits(ms) && Digits(sq)
    ensures ParseId(ms + "-" + sq) == Some(Id(Number(ms), Number(sq)))
  {
    var s := ms + "-" + sq;
    SeparatorOfJoin(ms, sq);
    assert s[..|ms|] == ms && s[|ms| + 1..] == sq;
  }

  // ---- Packed form ----

  const SEQUENCE_BIT: nat := 20

  function Pow2(k: nat): (p: nat)
    ensures p > 0
  {
    if k == 0 then 1 else 2 * Pow2(k - 1)
  }

  function BitOr(a: nat, b: nat): nat
    decreases a + b
  {
    if a == 0 then b else if b == 0 then a
    else 2 * BitOr(a / 2, b / 2) + (if a % 2 == 1 || b % 2 == 1 then 1 else 0)
  }

  function BitAnd(a: nat, b: nat): nat
    decreases a + b
  {
    if a == 0 || b == 0 then 0
    else 2 * BitAnd(a / 2, b / 2) + (if a % 2 == 1 && b % 2 == 1 then 1 else 0)
  }

  function ShiftLeft(a: nat, k: nat): nat { a * Pow2(k) }

  function ShiftRight(a: nat, k: nat): nat {
    if k == 0 then a else ShiftRight(a / 2, k - 1)
  }

  function Pack(id: Id): nat {
    BitOr(ShiftLeft(id.ms, SEQUENCE_BIT), id.sq)
  }

  function Unpack(key: nat): Id {
    Id(ShiftRight(key, SEQUENCE_BIT), BitAnd(key, Pow2(SEQUENCE_BIT) - 1))
  }

  lemma {:induction false} OrDisjoint(m: nat, s: nat, k: nat)
    requires s < Pow2(k)
    ensures BitOr(ShiftLeft(m, k), s) == m * Pow2(k) + s
    decreases k
  {
    var a := ShiftLeft(m, k);
    if k == 0 {
      assert a == m && s == 0;
    } else {
      var half := m * Pow2(k - 1);
      assert a == 2 * half by { assert m * (2 * Pow2(k - 1)) == 2 * (m * Pow2(k - 1)); }
      if a != 0 && s != 0 {
        OrDisjoint(m, s / 2, k - 1);
        assert a / 2 == half && a % 2 == 0;
        assert BitOr(a, s) == 2 * BitOr(half, s / 2) + s % 2;
      }
    }
  }

  lemma {:induction false} AndMask(n: nat, k: nat)
    ensures BitAnd(n, Pow2(k) - 1) == n % Pow2(k)
    decreases k
  {
    if k == 0 {
    } else if n != 0 {
      var mask := Pow2(k) - 1;
      var half := Pow2(k - 1);
      assert mask == 2 * (half - 1) + 1;
      assert mask / 2 == half - 1 && mask % 2 == 1;
      AndMask(n / 2, k - 1);
      assert BitAnd(n, mask) == 2 * ((n / 2) % half) + n % 2;
      ModDouble(n, half);
    }
  }

  lemma {:induction false} ShiftRightIsDivision(n: nat, k: nat)
    ensures ShiftRight(n, k) == n / Pow2(k)
    decreases k
  {
    if k != 0 {
      ShiftRightIsDivision(n / 2, k - 1);
      ModDouble(n, Pow2(k - 1));
    }
  }

  lemma ModDouble(n: nat, half: nat)
    requires half > 0
    ensures n % (2 * half) == 2 * ((n / 2) % half) + n % 2
    ensures n / (2 * half) == (n / 2) / half
  {
    var q, r := (n / 2) / half, (n / 2) % half;
    assert n == 2 * (q * half + r) + n % 2;
    assert n == q * (2 * half) + (2 * r + n % 2) by { assert 2 * (q * half) == q * (2 * half); }
    DivModUnique(n, 2 * half, q, 2 * r + n % 2);
  }

  lemma DivModUnique(n: nat, d: nat, q: nat, r: nat)
    requires d > 0 && r < d && n == q * d + r
    ensures n / d == q && n % d == r
  {
    var q', r' := n / d, n % d;
    assert n == d * q' + r';
    SmallMultiple(q' - q, d, r - r');
  }

  lemma SmallMultiple(z: int, d: int, w: int)
    requires z * d == w && -d < w < d
    ensures z == 0
  {}

  lemma Pow20()
    ensures Pow2(SEQUENCE_BIT) == 0x10_0000
  {
    assert Pow2(4) == 16;
    assert Pow2(8) == 256;
    assert Pow2(12) == 4096;
    assert Pow2(16) == 65536;
  }

  lemma PackValue(id: Id)
    requires id.sq < 0x10_0000
    ensures Pack(id) == id.ms * 0x10_0000 + id.sq
  {
    Pow20();
    OrDisjoint(id.ms, id.sq, SEQUENCE_BIT);
  }

  lemma UnpackValue(key: nat)
    ensures Unpack(key) == Id(key / 0x10_0000, key % 0x10_0000)
  {
    Pow20();
    AndMask(key, SEQUENCE_BIT);
    ShiftRightIsDivision(key, SEQUENCE_BIT);
  }

  /** Packing loses nothing exactly when the sequence number fits its twenty bits. */
  lemma UnpackOfPackIff(id: Id)
    ensures Unpack(Pack(id)) == id <==> id.sq < 0x10_0000
  {
    UnpackValue(Pack(id));
    if id.sq < 0x10_0000 {
      PackValue(id);
      DivModUnique(Pack(id), 0x10_0000, id.ms, id.sq);
    }
  }

  lemma PackOfUnpack(key: nat)
    ensures Pack(Unpack(key)) == key
  {
    UnpackValue(key);
    PackValue(Unpack(key));
  }

  /** On ids that fit, the integer order is the event order. */
  lemma PackPreservesOrder(a: Id, b: Id)
    requires a.sq < 0x10_0000 && b.sq < 0x10_0000
    ensures Pack(a) < Pack(b) <==> Less(a, b)
    ensures Pack(a) == Pack(b) <==> a == b
  {
    PackValue(a);
    PackValue(b);
  }

  /** The key fits a signed 64-bit column exactly until millisecond 2^43. */
  lemma PackFitsBigint(id: Id)
    requires id.sq < 0x10_0000
    ensures Pack(id) < 0x8000_0000_0000_0000 <==> id.ms < 0x800_0000_0000
  {
    PackValue(id);
  }

  /** Beyond twenty bits two ids share one key, and the later of them sorts as equal. */
  lemma PackCollides()
    ensures Pack(Id(0, 0x10_0000)) == Pack(Id(1, 0))
    ensures Less(Id(0, 0x10_0000), Id(1, 0))
  {
    PackValue(Id(1, 0));
    assert ShiftLeft(0, SEQUENCE_BIT) == 0;
  }
}
