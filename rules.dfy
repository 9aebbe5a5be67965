/** The schema engine: a schema is an immutable table of field rules,
    per-element rules and cross-field rules; `Validate` applies it to a
    document and gathers every violation, keyed by path, without raising. */
module Rules {
  import opened Values
  import opened Predicates

  datatype Requiredness = Required | OptionalNilable

  datatype Segment = Key(name: string) | Index(i: nat)

  type Path = seq<Segment>

  /** At most one code per path: within one field the first failing check
      is the one reported. */
  type Errors = map<Path, ErrorCode>

  /** A check chain bound to one key of a hash. */
  datatype LeafRule = LeafRule(key: string, req: Requiredness, chain: seq<Check>)

  /** What each element of an array-valued field must satisfy. */
  datatype Elements =
    | NoElements
    | EachValue(checks: seq<Check>)
    | EachSchema(rules: seq<LeafRule>)

  datatype FieldRule = FieldRule(leaf: LeafRule, elements: Elements)

  /** `dependent` must not exceed `other`; reported on `dependent`. */
  datatype CrossRule = NotGreaterThan(dependent: string, other: string)

  datatype Schema = Schema(fields: seq<FieldRule>, cross: seq<CrossRule>)

  datatype ValidationResult = ValidationResult(errors: Errors) {
    predicate Success() { errors == map[] }
  }

  // ---------------------------------------------------------------------
  // What each rule demands, stated directly.

  /** An absent or nil value satisfies an optional rule and fails a required
      one; any other value must pass every check of the chain. */
  predicate LeafHolds(r: LeafRule, m: map<string, Value>) {
    if r.key !in m || m[r.key].Nil? then r.req == OptionalNilable
    else Passes(r.chain, m[r.key])
  }

  predicate ItemHolds(el: Elements, v: Value) {
    match el
    case NoElements => true
    case EachValue(cs) => Passes(cs, v)
    case EachSchema(rs) => v.Hash? && forall i :: 0 <= i < |rs| ==> LeafHolds(rs[i], v.fields)
  }

  /** The field's own rule holds, and when its value is an array, every
      element satisfies the element rule. */
  predicate FieldHolds(f: FieldRule, doc: Doc) {
    && LeafHolds(f.leaf, doc)
    && (f.leaf.key in doc && doc[f.leaf.key].Arr? ==>
          forall j :: 0 <= j < |doc[f.leaf.key].items| ==> ItemHolds(f.elements, doc[f.leaf.key].items[j]))
  }

  /** Holds unless both values are integers and `dependent` exceeds `other`. */
  predicate CrossHolds(c: CrossRule, doc: Doc) {
    c.dependent in doc && c.other in doc && doc[c.dependent].Int? && doc[c.other].Int?
    ==> doc[c.dependent].i <= doc[c.other].i
  }

  /** No error is recorded at or below the top-level key `k`. */
  predicate Clean(errs: Errors, k: string) {
    forall p :: p in errs ==> !([Key(k)] <= p)
  }

  predicate DistinctKeys(fs: seq<FieldRule>) {
    forall a, b :: 0 <= a < b < |fs| ==> fs[a].leaf.key != fs[b].leaf.key
  }

  function DeclaredKeys(s: Schema): set<string> {
    (set i | 0 <= i < |s.fields| :: s.fields[i].leaf.key)
    + (set j | 0 <= j < |s.cross| :: s.cross[j].dependent)
    + (set j | 0 <= j < |s.cross| :: s.cross[j].other)
  }

  // ---------------------------------------------------------------------
  // The engine.

  /** The code one rule reports on key `r.key` of `m`, if any: a missing
      required key, a nil required value, or the first check the value fails. */
  function LeafVerdict(r: LeafRule, m: map<string, Value>): (v: Option<ErrorCode>)
    ensures v == None <==> LeafHolds(r, m)
  {
    if r.key !in m then
      (if r.req == Required then Some(Missing) else None)
    else if m[r.key].Nil? then
      (if r.req == Required then Some(WrongType) else None)
    else
      FirstFailure(r.chain, m[r.key])
  }

  /** One rule's verdict, reported under `at + [Key(r.key)]`. */
  function EvalLeaf(r: LeafRule, m: map<string, Value>, at: Path): (e: Errors)
    ensures e == map[] <==> LeafHolds(r, m)
    ensures forall p :: p in e ==> p == at + [Key(r.key)]
    ensures at + [Key(r.key)] in e <==> !LeafHolds(r, m)
    ensures at + [Key(r.key)] in e ==> Some(e[at + [Key(r.key)]]) == LeafVerdict(r, m)
  {
    match LeafVerdict(r, m)
    case None => map[]
    case Some(code) =>
      assert at + [Key(r.key)] in map[at + [Key(r.key)] := code];
      map[at + [Key(r.key)] := code]
  }

  function EvalLeaves(rs: seq<LeafRule>, m: map<string, Value>, at: Path): (e: Errors)
    ensures e == map[] <==> forall i :: 0 <= i < |rs| ==> LeafHolds(rs[i], m)
    ensures forall p :: p in e ==> at < p
  {
    if rs == [] then map[]
    else
      var rest := EvalLeaves(rs[1..], m, at);
      assert forall i :: 1 <= i < |rs| ==> rs[i] == rs[1..][i - 1];
      rest + EvalLeaf(rs[0], m, at)
  }

  function EvalItem(el: Elements, v: Value, at: Path): (e: Errors)
    ensures e == map[] <==> ItemHolds(el, v)
    ensures forall p :: p in e ==> at <= p
  {
    assert forall code: ErrorCode :: at in map[at := code];
    match el
    case NoElements => map[]
    case EachValue(cs) =>
      (match FirstFailure(cs, v)
       case None => map[]
       case Some(code) => map[at := code])
    case EachSchema(rs) =>
      if v.Hash? then EvalLeaves(rs, v.fields, at) else map[at := WrongType]
  }

  /** Element `k` of `items`, for `k` from `from` on, reported under
      `at + [Index(k)]`. */
  function EvalItems(el: Elements, items: seq<Value>, from: nat, at: Path): (e: Errors)
    ensures e == map[] <==> forall k :: from <= k < |items| ==> ItemHolds(el, items[k])
    ensures forall p :: p in e ==> at < p && p[|at|].Index? && p[|at|].i >= from
    decreases |items| - from
  {
    if from >= |items| then map[]
    else EvalItem(el, items[from], at + [Index(from)]) + EvalItems(el, items, from + 1, at)
  }

  /** A field's own rule; then, only when that passed and the value is an
      array, its element rule on every element. */
  function EvalField(f: FieldRule, doc: Doc): (e: Errors)
    ensures e == map[] <==> FieldHolds(f, doc)
    ensures forall p :: p in e ==> [Key(f.leaf.key)] <= p
    ensures [Key(f.leaf.key)] in e <==> !LeafHolds(f.leaf, doc)
    ensures [Key(f.leaf.key)] in e ==> Some(e[[Key(f.leaf.key)]]) == LeafVerdict(f.leaf, doc)
  {
    var own := EvalLeaf(f.leaf, doc, []);
    assert [] + [Key(f.leaf.key)] == [Key(f.leaf.key)];
    if own != map[] || f.leaf.key !in doc || !doc[f.leaf.key].Arr? then own
    else EvalItems(f.elements, doc[f.leaf.key].items, 0, [Key(f.leaf.key)])
  }

  /** Every field is evaluated; a failure in one never hides another. */
  function EvalFields(fs: seq<FieldRule>, doc: Doc): (e: Errors)
    ensures e == map[] <==> forall i :: 0 <= i < |fs| ==> FieldHolds(fs[i], doc)
  {
    if fs == [] then map[]
    else
      var rest := EvalFields(fs[1..], doc);
      assert forall i :: 1 <= i < |fs| ==> fs[i] == fs[1..][i - 1];
      EvalField(fs[0], doc) + rest
  }

  /** A cross-field rule runs only when neither of its fields has an error
      of its own. */
  function EvalCross(cs: seq<CrossRule>, doc: Doc, fieldErrors: Errors): (e: Errors)
    ensures e == map[] <==>
              forall j :: 0 <= j < |cs| && Clean(fieldErrors, cs[j].dependent) && Clean(fieldErrors, cs[j].other)
                          ==> CrossHolds(cs[j], doc)
    ensures forall j :: 0 <= j < |cs| ==>
              (Clean(fieldErrors, cs[j].dependent) && Clean(fieldErrors, cs[j].other) && !CrossHolds(cs[j], doc)
               ==> [Key(cs[j].dependent)] in e)
  {
    if cs == [] then map[]
    else
      var rest := EvalCross(cs[1..], doc, fieldErrors);
      assert forall j :: 1 <= j < |cs| ==> cs[j] == cs[1..][j - 1];
      var c := cs[0];
      assert [Key(c.dependent)] in rest[[Key(c.dependent)] := RangeViolation];
      if Clean(fieldErrors, c.dependent) && Clean(fieldErrors, c.other) && !CrossHolds(c, doc)
      then rest[[Key(c.dependent)] := RangeViolation]
      else rest
  }

  /** Validates `doc` against `s`.  Total: every document yields a result.
      A field's own error takes precedence over a cross-field error on the
      same path. */
  function Validate(s: Schema, doc: Doc): (r: ValidationResult)
    ensures r.Success() <==>
              && (forall i :: 0 <= i < |s.fields| ==> FieldHolds(s.fields[i], doc))
              && (forall j :: 0 <= j < |s.cross| ==> CrossHolds(s.cross[j], doc))
  {
    var fieldErrors := EvalFields(s.fields, doc);
    ValidationResult(EvalCross(s.cross, doc, fieldErrors) + fieldErrors)
  }

  // ---------------------------------------------------------------------
  // Where errors land.

  /** Every cross-field error is a range violation on the dependent field
      of a violated rule. */
  lemma {:induction false} CrossErrorsShape(cs: seq<CrossRule>, doc: Doc, fieldErrors: Errors, p: Path)
    requires p in EvalCross(cs, doc, fieldErrors)
    ensures EvalCross(cs, doc, fieldErrors)[p] == RangeViolation
    ensures exists j :: 0 <= j < |cs| && p == [Key(cs[j].dependent)] && !CrossHolds(cs[j], doc)
  {
    var c := cs[0];
    if p != [Key(c.dependent)] || !(Clean(fieldErrors, c.dependent) && Clean(fieldErrors, c.other) && !CrossHolds(c, doc)) {
      CrossErrorsShape(cs[1..], doc, fieldErrors, p);
      var j :| 0 <= j < |cs| - 1 && p == [Key(cs[1..][j].dependent)] && !CrossHolds(cs[1..][j], doc);
      assert cs[1..][j] == cs[j + 1];
    }
  }

  /** Every error of the field table belongs to one field's own report. */
  lemma {:induction false} EvalFieldsFrom(fs: seq<FieldRule>, doc: Doc, p: Path)
    requires p in EvalFields(fs, doc)
    ensures exists i :: 0 <= i < |fs| && p in EvalField(fs[i], doc) && [Key(fs[i].leaf.key)] <= p
  {
    if p !in EvalField(fs[0], doc) {
      EvalFieldsFrom(fs[1..], doc, p);
      var i :| 0 <= i < |fs| - 1 && p in EvalField(fs[1..][i], doc) && [Key(fs[1..][i].leaf.key)] <= p;
      assert fs[1..][i] == fs[i + 1];
    }
  }

  /** With distinct keys, each field's errors reach the table's report
      unchanged: one field's failure neither hides nor rewrites another's. */
  lemma {:induction false} EvalFieldsKeeps(fs: seq<FieldRule>, doc: Doc, i: nat)
    requires DistinctKeys(fs) && i < |fs|
    ensures forall p :: p in EvalField(fs[i], doc) ==>
              p in EvalFields(fs, doc) && EvalFields(fs, doc)[p] == EvalField(fs[i], doc)[p]
  {
    var rest := EvalFields(fs[1..], doc);
    if i == 0 {
      forall p | p in rest ensures |p| > 0 && p[0] != Key(fs[0].leaf.key) {
        EvalFieldsFrom(fs[1..], doc, p);
        var k :| 0 <= k < |fs| - 1 && p in EvalField(fs[1..][k], doc) && [Key(fs[1..][k].leaf.key)] <= p;
        assert fs[1..][k] == fs[k + 1];
      }
    } else {
      assert DistinctKeys(fs[1..]) by {
        forall a, b | 0 <= a < b < |fs| - 1 ensures fs[1..][a].leaf.key != fs[1..][b].leaf.key {
          assert fs[1..][a] == fs[a + 1] && fs[1..][b] == fs[b + 1];
        }
      }
      EvalFieldsKeeps(fs[1..], doc, i - 1);
      assert fs[1..][i - 1] == fs[i];
    }
  }

  /** Every error a field produces is in the final report, with its code. */
  lemma FieldErrorsReported(s: Schema, doc: Doc, i: nat)
    requires DistinctKeys(s.fields) && i < |s.fields|
    ensures forall p :: p in EvalField(s.fields[i], doc) ==>
              p in Validate(s, doc).errors && Validate(s, doc).errors[p] == EvalField(s.fields[i], doc)[p]
  {
    EvalFieldsKeeps(s.fields, doc, i);
  }

  /** With distinct keys, only a field itself reports on its own path. */
  lemma OwnPathFromOwnField(fs: seq<FieldRule>, doc: Doc, i: nat)
    requires DistinctKeys(fs) && i < |fs|
    ensures [Key(fs[i].leaf.key)] in EvalFields(fs, doc) ==> [Key(fs[i].leaf.key)] in EvalField(fs[i], doc)
  {
    var k := fs[i].leaf.key;
    if [Key(k)] in EvalFields(fs, doc) {
      EvalFieldsFrom(fs, doc, [Key(k)]);
      var i' :| 0 <= i' < |fs| && [Key(k)] in EvalField(fs[i'], doc) && [Key(fs[i'].leaf.key)] <= [Key(k)];
      assert fs[i'].leaf.key == k;
      assert i' == i;
    }
  }

  /** The verdict on a field's own path is its own rule's alone, when no
      cross-field rule reports on that field. */
  lemma OwnPathVerdict(s: Schema, doc: Doc, i: nat)
    requires DistinctKeys(s.fields) && i < |s.fields|
    requires forall j :: 0 <= j < |s.cross| ==> s.cross[j].dependent != s.fields[i].leaf.key
    ensures var k := s.fields[i].leaf.key;
            var errs := Validate(s, doc).errors;
            && ([Key(k)] in errs <==> !LeafHolds(s.fields[i].leaf, doc))
            && ([Key(k)] in errs ==> Some(errs[[Key(k)]]) == LeafVerdict(s.fields[i].leaf, doc))
  {
    var k := s.fields[i].leaf.key;
    var fieldErrors := EvalFields(s.fields, doc);
    FieldErrorsReported(s, doc, i);
    OwnPathFromOwnField(s.fields, doc, i);
    if [Key(k)] !in fieldErrors && [Key(k)] in EvalCross(s.cross, doc, fieldErrors) {
      CrossErrorsShape(s.cross, doc, fieldErrors, [Key(k)]);
    }
  }

  /** On the path of a field whose own rule holds, only a violated
      cross-field rule reporting on that field can put an error. */
  lemma DependentPathVerdict(s: Schema, doc: Doc, i: nat)
    requires DistinctKeys(s.fields) && i < |s.fields| && FieldHolds(s.fields[i], doc)
    ensures [Key(s.fields[i].leaf.key)] in Validate(s, doc).errors ==>
              exists j :: 0 <= j < |s.cross| && s.cross[j].dependent == s.fields[i].leaf.key
                          && !CrossHolds(s.cross[j], doc)
  {
    HoldingFieldIsClean(s.fields, doc, i);
    var fieldErrors := EvalFields(s.fields, doc);
    if [Key(s.fields[i].leaf.key)] in EvalCross(s.cross, doc, fieldErrors) {
      CrossErrorsShape(s.cross, doc, fieldErrors, [Key(s.fields[i].leaf.key)]);
    }
  }

  /** A field whose own rule holds leaves nothing at or below its key. */
  lemma {:induction false} HoldingFieldIsClean(fs: seq<FieldRule>, doc: Doc, a: nat)
    requires DistinctKeys(fs) && a < |fs| && FieldHolds(fs[a], doc)
    ensures Clean(EvalFields(fs, doc), fs[a].leaf.key)
  {
    forall p | p in EvalFields(fs, doc) ensures !([Key(fs[a].leaf.key)] <= p) {
      EvalFieldsFrom(fs, doc, p);
      var i :| 0 <= i < |fs| && p in EvalField(fs[i], doc) && [Key(fs[i].leaf.key)] <= p;
      assert i != a;
      assert fs[i].leaf.key != fs[a].leaf.key;
      assert p[0] == Key(fs[i].leaf.key);
    }
  }

  /** A violated cross-field rule whose two fields each hold on their own is
      reported once, as a range violation on the dependent field. */
  lemma CrossErrorReported(s: Schema, doc: Doc, j: nat, a: nat, b: nat)
    requires DistinctKeys(s.fields) && j < |s.cross| && a < |s.fields| && b < |s.fields|
    requires s.fields[a].leaf.key == s.cross[j].dependent && s.fields[b].leaf.key == s.cross[j].other
    requires FieldHolds(s.fields[a], doc) && FieldHolds(s.fields[b], doc)
    requires !CrossHolds(s.cross[j], doc)
    ensures [Key(s.cross[j].dependent)] in Validate(s, doc).errors
    ensures Validate(s, doc).errors[[Key(s.cross[j].dependent)]] == RangeViolation
  {
    var fieldErrors := EvalFields(s.fields, doc);
    HoldingFieldIsClean(s.fields, doc, a);
    HoldingFieldIsClean(s.fields, doc, b);
    assert [Key(s.cross[j].dependent)] !in fieldErrors;
    CrossErrorsShape(s.cross, doc, fieldErrors, [Key(s.cross[j].dependent)]);
  }

  /** A failing rule of a nested hash is reported under its own key, with
      its own code, whatever the other rules say. */
  lemma {:induction false} LeafErrorReported(rs: seq<LeafRule>, m: map<string, Value>, at: Path, i: nat)
    requires i < |rs| && forall a, b :: 0 <= a < b < |rs| ==> rs[a].key != rs[b].key
    requires !LeafHolds(rs[i], m)
    ensures at + [Key(rs[i].key)] in EvalLeaves(rs, m, at)
    ensures Some(EvalLeaves(rs, m, at)[at + [Key(rs[i].key)]]) == LeafVerdict(rs[i], m)
  {
    if i > 0 {
      LeafErrorReported(rs[1..], m, at, i - 1);
      assert rs[1..][i - 1] == rs[i];
      assert at + [Key(rs[i].key)] != at + [Key(rs[0].key)] by {
        assert (at + [Key(rs[i].key)])[|at|] == Key(rs[i].key);
      }
    }
  }

  /** Each element's errors reach the array's report unchanged. */
  lemma {:induction false} EvalItemsKeeps(el: Elements, items: seq<Value>, from: nat, at: Path, k: nat)
    requires from <= k < |items|
    ensures forall p :: p in EvalItem(el, items[k], at + [Index(k)]) ==>
              p in EvalItems(el, items, from, at)
              && EvalItems(el, items, from, at)[p] == EvalItem(el, items[k], at + [Index(k)])[p]
    decreases |items| - from
  {
    var here := EvalItem(el, items[from], at + [Index(from)]);
    var rest := EvalItems(el, items, from + 1, at);
    if k == from {
      forall p | p in here ensures p !in rest {
        assert (at + [Index(from)]) <= p;
        assert p[|at|] == (at + [Index(from)])[|at|] == Index(from);
      }
    } else {
      EvalItemsKeeps(el, items, from + 1, at, k);
    }
  }

  /** A failing element of an array field is reported under the field's key
      and the element's index. */
  lemma ItemErrorsReported(s: Schema, doc: Doc, i: nat, k: nat)
    requires DistinctKeys(s.fields) && i < |s.fields|
    requires s.fields[i].leaf.key in doc && doc[s.fields[i].leaf.key].Arr?
    requires LeafHolds(s.fields[i].leaf, doc) && k < |doc[s.fields[i].leaf.key].items|
    ensures var at := [Key(s.fields[i].leaf.key), Index(k)];
            var item := EvalItem(s.fields[i].elements, doc[s.fields[i].leaf.key].items[k], at);
            forall p :: p in item ==> p in Validate(s, doc).errors && Validate(s, doc).errors[p] == item[p]
  {
    var f := s.fields[i];
    assert [Key(f.leaf.key)] + [Index(k)] == [Key(f.leaf.key), Index(k)];
    EvalItemsKeeps(f.elements, doc[f.leaf.key].items, 0, [Key(f.leaf.key)], k);
    FieldErrorsReported(s, doc, i);
  }

  /** Giving a field a value its own rule accepts keeps a valid document
      valid, when no cross-field rule reads that field. */
  lemma AcceptedValueKeepsSuccess(s: Schema, doc: Doc, i: nat, v: Value)
    requires DistinctKeys(s.fields) && i < |s.fields| && Validate(s, doc).Success()
    requires FieldHolds(s.fields[i], doc[s.fields[i].leaf.key := v])
    requires forall j :: 0 <= j < |s.cross| ==>
               s.cross[j].dependent != s.fields[i].leaf.key && s.cross[j].other != s.fields[i].leaf.key
    ensures Validate(s, doc[s.fields[i].leaf.key := v]).Success()
  {
    var k := s.fields[i].leaf.key;
    forall a | 0 <= a < |s.fields| ensures FieldHolds(s.fields[a], doc[k := v]) {
      if a != i {
        assert s.fields[a].leaf.key != k by {
          if a < i {} else {}
        }
      }
    }
  }

  // ---------------------------------------------------------------------
  // Keys no rule names.

  /** A field's report reads only its own key. */
  lemma EvalFieldIgnores(f: FieldRule, doc: Doc, k: string, v: Value)
    requires f.leaf.key != k
    ensures EvalField(f, doc[k := v]) == EvalField(f, doc)
  {
    var key := f.leaf.key;
    assert (key in doc[k := v]) == (key in doc);
    if key in doc {
      assert doc[k := v][key] == doc[key];
    }
    assert LeafVerdict(f.leaf, doc[k := v]) == LeafVerdict(f.leaf, doc);
  }

  lemma {:induction false} EvalFieldsIgnores(fs: seq<FieldRule>, doc: Doc, k: string, v: Value)
    requires forall i :: 0 <= i < |fs| ==> fs[i].leaf.key != k
    ensures EvalFields(fs, doc[k := v]) == EvalFields(fs, doc)
  {
    if fs != [] {
      EvalFieldIgnores(fs[0], doc, k, v);
      EvalFieldsIgnores(fs[1..], doc, k, v);
    }
  }

  lemma {:induction false} EvalCrossIgnores(cs: seq<CrossRule>, doc: Doc, errs: Errors, k: string, v: Value)
    requires forall j :: 0 <= j < |cs| ==> cs[j].dependent != k && cs[j].other != k
    ensures EvalCross(cs, doc[k := v], errs) == EvalCross(cs, doc, errs)
  {
    if cs != [] {
      EvalCrossIgnores(cs[1..], doc, errs, k, v);
    }
  }

  /** Setting a key that no rule names, such as an unconstrained extra
      setting, changes nothing in the result. */
  lemma UndeclaredKeyIgnored(s: Schema, doc: Doc, k: string, v: Value)
    requires k !in DeclaredKeys(s)
    ensures Validate(s, doc[k := v]) == Validate(s, doc)
  {
    assert forall i :: 0 <= i < |s.fields| ==> s.fields[i].leaf.key in DeclaredKeys(s);
    assert forall j :: 0 <= j < |s.cross| ==> s.cross[j].dependent in DeclaredKeys(s) && s.cross[j].other in DeclaredKeys(s);
    EvalFieldsIgnores(s.fields, doc, k, v);
    EvalCrossIgnores(s.cross, doc, EvalFields(s.fields, doc), k, v);
  }
}
