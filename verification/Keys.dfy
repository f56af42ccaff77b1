/** The string keys of ids (packages/crdt/src/opId.ts). */
module Keys {
  import opened Ids
  import opened Ops

  function Digit(d: nat): char
    requires d < 10
  {
    ('0' as int + d) as char
  }

  predicate IsDigit(c: char) {
    '0' <= c <= '9'
  }

  /** A counter in decimal notation, without leading zeros. */
  function Decimal(n: nat): string {
    if n < 10 then [Digit(n)] else Decimal(n / 10) + [Digit(n % 10)]
  }

  predicate AllDigits(s: string) {
    s == [] || (IsDigit(s[|s| - 1]) && AllDigits(s[..|s| - 1]))
  }

  function Numeral(s: string): nat
    requires AllDigits(s)
  {
    if s == [] then 0 else Numeral(s[..|s| - 1]) * 10 + (s[|s| - 1] as int - '0' as int)
  }

  /** Number(): the empty string is 0; None stands for NaN. */
  function ToNumber(s: string): Option<nat> {
    if AllDigits(s) then Some(Numeral(s)) else None
  }

  function OpIdToString(id: OpId): string {
    Decimal(id.counter) + "@" + id.replicaId
  }

  function OpIdKeyOf(op: Op): string {
    OpIdToString(OpIdOf(op))
  }

  /** lastIndexOf: -1 if there is none. */
  function LastIndexOf(s: string, c: char): (i: int)
    ensures -1 <= i < |s|
  {
    if s == [] then -1
    else if s[|s| - 1] == c then |s| - 1
    else LastIndexOf(s[..|s| - 1], c)
  }

  /** slice(0, at): a negative end counts from the back. */
  function SliceTo(s: string, at: int): string
    requires -1 <= at <= |s|
  {
    if at >= 0 then s[..at] else if s == [] then [] else s[..|s| - 1]
  }

  datatype ParsedId = ParsedId(counter: Option<nat>, replicaId: string)

  /** opIdFromString splits at the last '@'. */
  function OpIdFromString(s: string): ParsedId {
    var at := LastIndexOf(s, '@');
    ParsedId(ToNumber(SliceTo(s, at)), s[at + 1..])
  }

  lemma {:induction false} DecimalIsNumeral(n: nat)
    ensures Decimal(n) != [] && AllDigits(Decimal(n)) && Numeral(Decimal(n)) == n
  {
    var s := Decimal(n);
    if n >= 10 {
      DecimalIsNumeral(n / 10);
      assert s[..|s| - 1] == Decimal(n / 10);
    } else {
      assert s[..0] == [];
    }
  }

  lemma {:induction false} OtherCharacter(s: string, i: nat)
    requires i < |s| && !IsDigit(s[i])
    ensures !AllDigits(s)
  {
    if i < |s| - 1 { OtherCharacter(s[..|s| - 1], i); }
  }

  lemma {:induction false} LastIndexFound(s: string, c: char, i: nat)
    requires i < |s| && s[i] == c
    ensures i <= LastIndexOf(s, c) && s[LastIndexOf(s, c)] == c
    ensures c !in s[i + 1..] ==> LastIndexOf(s, c) == i
  {
    if s[|s| - 1] == c {
      if i < |s| - 1 { assert s[i + 1..][|s| - i - 2] == c; }
    } else {
      var front := s[..|s| - 1];
      assert front[i] == s[i];
      LastIndexFound(front, c, i);
      assert front[i + 1..] == s[i + 1..][..|s| - i - 2];
    }
  }

  /** A key is digits, an '@' that is the first one, and the replica name. */
  lemma {:induction false} FirstAt(id: OpId)
    ensures var s, n := OpIdToString(id), |Decimal(id.counter)|;
      n < |s| && s[n] == '@' && s[..n] == Decimal(id.counter) && s[n + 1..] == id.replicaId
  {
  }

  lemma {:induction false} NoAtBefore(id: OpId, i: nat)
    requires i < |Decimal(id.counter)|
    ensures OpIdToString(id)[i] != '@'
  {
    DecimalIsNumeral(id.counter);
    assert OpIdToString(id)[i] == Decimal(id.counter)[i];
    if !IsDigit(Decimal(id.counter)[i]) { OtherCharacter(Decimal(id.counter), i); }
  }

  /** Two ids never share a key, whatever characters the replica names contain. */
  lemma {:induction false} KeysAreInjective(a: OpId, b: OpId)
    ensures OpIdToString(a) == OpIdToString(b) ==> a == b
  {
    if OpIdToString(a) == OpIdToString(b) {
      var m, n := |Decimal(a.counter)|, |Decimal(b.counter)|;
      FirstAt(a);
      FirstAt(b);
      if m < n { NoAtBefore(b, m); }
      if n < m { NoAtBefore(a, n); }
      DecimalIsNumeral(a.counter);
      DecimalIsNumeral(b.counter);
    }
  }

  lemma {:induction false} PlainKeyRoundTrip(id: OpId)
    requires '@' !in id.replicaId
    ensures OpIdFromString(OpIdToString(id)) == ParsedId(Some(id.counter), id.replicaId)
  {
    FirstAt(id);
    LastIndexFound(OpIdToString(id), '@', |Decimal(id.counter)|);
    DecimalIsNumeral(id.counter);
  }

  /** An '@' in the name moves the split, and what is before it is no number. */
  lemma {:induction false} OtherKeysAreMisread(id: OpId)
    requires '@' in id.replicaId
    ensures OpIdFromString(OpIdToString(id)).counter == None
  {
    var s, n := OpIdToString(id), |Decimal(id.counter)|;
    FirstAt(id);
    var j :| 0 <= j < |id.replicaId| && id.replicaId[j] == '@';
    assert s[n + 1 + j] == '@';
    LastIndexFound(s, '@', n + 1 + j);
    OtherCharacter(s[..LastIndexOf(s, '@')], n);
  }

  /** Reading a key back gives the id iff the replica name has no '@' in it. */
  lemma {:induction false} KeyRoundTrip(id: OpId)
    ensures OpIdFromString(OpIdToString(id)) == ParsedId(Some(id.counter), id.replicaId) <==> '@' !in id.replicaId
  {
    if '@' in id.replicaId { OtherKeysAreMisread(id); } else { PlainKeyRoundTrip(id); }
  }

  /** A delete has the key of the insert that it targets; otherwise a key tells the op's own id. */
  lemma {:induction false} SameKey(a: Op, b: Op)
    ensures OpIdKeyOf(a) == OpIdKeyOf(b) <==> OpIdOf(a) == OpIdOf(b)
  {
    KeysAreInjective(OpIdOf(a), OpIdOf(b));
  }
}
