/** The predicate library: total checks over one value, each carrying the
    symbolic error code reported when it fails. */
module Predicates {
  import opened Values
  import Uris

  /** Symbolic error codes of a failed check; callers match on them rather
      than on formatted text. */
  datatype ErrorCode =
    | Missing
    | WrongType
    | FormatViolation
    | RangeViolation
    | EnumViolation
    | EmptyCollection

  datatype Check =
    | IsStr
    | IsInt
    | IsBool
    | IsArray
      // neither nil, an empty string, an empty array nor an empty hash;
      // strings count as collections here, so an empty string is reported
      // as EmptyCollection
    | Filled
    | Gt(bound: int)
    | Gteq(bound: int)
      // letters, digits, '_' and '-' only, and at least one of them
    | Identifier
      // a URI with an allowed scheme, a host and a port
    | BrokerUri
    | IncludedIn(allowed: set<Value>)

  predicate IsIdentifierChar(c: char) {
    Uris.IsAlpha(c) || Uris.IsDigit(c) || c == '_' || c == '-'
  }

  /** The identifier pattern: the whole string is one or more identifier
      characters. */
  predicate IsIdentifier(s: string) {
    |s| > 0 && forall i :: 0 <= i < |s| ==> IsIdentifierChar(s[i])
  }

  predicate IsBlank(v: Value) {
    match v
    case Nil => true
    case Str(s) => s == ""
    case Arr(xs) => xs == []
    case Hash(m) => m == map[]
    case _ => false
  }

  /** Whether `v` passes check `c`.  Every check is total: a value of the
      wrong kind fails it instead of raising. */
  predicate Holds(c: Check, v: Value) {
    match c
    case IsStr => v.Str?
    case IsInt => v.Int?
    case IsBool => v.Bool?
    case IsArray => v.Arr?
    case Filled => !IsBlank(v)
    case Gt(n) => v.Int? && v.i > n
    case Gteq(n) => v.Int? && v.i >= n
    case Identifier => v.Str? && IsIdentifier(v.s)
    case BrokerUri => v.Str? && Uris.IsBroker(v.s)
    case IncludedIn(allowed) => v in allowed
  }

  function CodeOf(c: Check): ErrorCode {
    match c
    case IsStr | IsInt | IsBool | IsArray => WrongType
    case Filled => EmptyCollection
    case Gt(_) | Gteq(_) => RangeViolation
    case Identifier | BrokerUri => FormatViolation
    case IncludedIn(_) => EnumViolation
  }

  /** `v` passes every check of `chain`. */
  predicate Passes(chain: seq<Check>, v: Value) {
    forall i :: 0 <= i < |chain| ==> Holds(chain[i], v)
  }

  /** The chains of this schema have at most two checks; this spells such a
      chain out check by check. */
  lemma PassesShort(chain: seq<Check>, v: Value)
    requires |chain| <= 2
    ensures Passes(chain, v) <==>
              (|chain| < 1 || Holds(chain[0], v)) && (|chain| < 2 || Holds(chain[1], v))
  {
  }

  /** Runs `chain` in order and stops at the first check `v` fails, whose
      code is the result; `None` when every check passes. */
  function FirstFailure(chain: seq<Check>, v: Value): (r: Option<ErrorCode>)
    ensures r == None <==> Passes(chain, v)
    ensures r.Some? ==>
              exists k :: 0 <= k < |chain| && !Holds(chain[k], v) && r.value == CodeOf(chain[k])
                          && forall j :: 0 <= j < k ==> Holds(chain[j], v)
  {
    if chain == [] then None
    else if !Holds(chain[0], v) then Some(CodeOf(chain[0]))
    else
      var r := FirstFailure(chain[1..], v);
      assert forall i :: 1 <= i < |chain| ==> chain[i] == chain[1..][i - 1];
      if r.Some? then
        var k :| 0 <= k < |chain| - 1 && !Holds(chain[1..][k], v) && r.value == CodeOf(chain[1..][k])
                 && forall j :: 0 <= j < k ==> Holds(chain[1..][j], v);
        assert !Holds(chain[k + 1], v) && forall j :: 0 <= j < k + 1 ==> Holds(chain[j], v);
        r
      else r
  }

  /** A one-check chain fails exactly when its check does. */
  lemma FirstFailureOfOne(a: Check, v: Value)
    ensures FirstFailure([a], v) == if Holds(a, v) then None else Some(CodeOf(a))
  {
    assert [a][1..] == [];
  }

  /** A two-check chain reports its first check's failure before its
      second's. */
  lemma FirstFailureOfPair(a: Check, b: Check, v: Value)
    ensures FirstFailure([a, b], v) ==
              if !Holds(a, v) then Some(CodeOf(a))
              else if !Holds(b, v) then Some(CodeOf(b))
              else None
  {
    assert [a, b][1..] == [b];
    FirstFailureOfOne(b, v);
  }
}
