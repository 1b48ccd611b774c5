/** The conference query builder: `_formatFilters` checks caller-supplied filters against the
    FIELDS and OPERATORS tables and tracks the one field the datastore lets a query compare with an
    inequality; `_getQuery` orders the query by that field and coerces numeric values. */
module Filters {
  import opened Base
  import opened Numerals

  /** The conference properties of the FIELDS table. */
  datatype Field = City | Topics | Month | MaxAttendees

  /** The comparisons of the OPERATORS table. */
  datatype Op = Eq | Gt | Ge | Lt | Le | Ne

  /** The datastore operator each comparison names. */
  function Symbol(op: Op): string
  {
    match op
    case Eq => "="
    case Gt => ">"
    case Ge => ">="
    case Lt => "<"
    case Le => "<="
    case Ne => "!="
  }

  /** The FIELDS table: request token to field. */
  const FIELDS: map<string, Field> :=
    map["CITY" := City, "TOPIC" := Topics, "MONTH" := Month, "MAX_ATTENDEES" := MaxAttendees]

  /** The OPERATORS table: request token to comparison. */
  const OPERATORS: map<string, Op> :=
    map["EQ" := Eq, "GT" := Gt, "GTEQ" := Ge, "LT" := Lt, "LTEQ" := Le, "NE" := Ne]

  /** Every field and every comparison has exactly one token in its table. */
  lemma TokenTables()
    ensures forall f: Field :: f in FIELDS.Values
    ensures forall t1, t2 :: t1 in FIELDS && t2 in FIELDS && FIELDS[t1] == FIELDS[t2] ==> t1 == t2
    ensures forall op: Op :: op in OPERATORS.Values
    ensures forall t1, t2 :: t1 in OPERATORS && t2 in OPERATORS && OPERATORS[t1] == OPERATORS[t2] ==> t1 == t2
  {
    forall f: Field ensures f in FIELDS.Values {
      var t := match f
        case City => "CITY" case Topics => "TOPIC" case Month => "MONTH" case MaxAttendees => "MAX_ATTENDEES";
      assert t in FIELDS && FIELDS[t] == f;
    }
    forall op: Op ensures op in OPERATORS.Values {
      var t := match op
        case Eq => "EQ" case Gt => "GT" case Ge => "GTEQ" case Lt => "LT" case Le => "LTEQ" case Ne => "NE";
      assert t in OPERATORS && OPERATORS[t] == op;
    }
  }

  /** A filter as the caller sends it: tokens and the literal value, all text. */
  datatype FilterSpec = FilterSpec(field: string, operator: string, value: string)

  /** A filter whose tokens have been looked up. */
  datatype Filter = Filter(field: Field, op: Op, value: string)

  /** Every comparison except "=" is an inequality. */
  predicate IsInequality(op: Op)
  {
    op != Eq
  }

  lemma InequalitySymbol(op: Op)
    ensures IsInequality(op) <==> Symbol(op) != "="
  {
  }

  /** Both tokens of one filter looked up, or `None` if either is unknown (where the dict lookup
      raises KeyError). */
  function Translate(spec: FilterSpec): Option<Filter>
  {
    if spec.field in FIELDS && spec.operator in OPERATORS
    then Some(Filter(FIELDS[spec.field], OPERATORS[spec.operator], spec.value))
    else None
  }

  /** The field a filter compares with an inequality; `None` for "=" and for unknown tokens. */
  function InequalityField(spec: FilterSpec): Option<Field>
  {
    match Translate(spec)
    case None => None
    case Some(flt) => if IsInequality(flt.op) then Some(flt.field) else None
  }

  /** Every filter's field and operator tokens are in the tables. */
  predicate AllKnown(specs: seq<FilterSpec>)
  {
    forall i :: 0 <= i < |specs| ==> Translate(specs[i]).Some?
  }

  /** Two filters compare different fields with inequalities. */
  predicate TwoInequalityFields(specs: seq<FilterSpec>)
  {
    exists i, j :: 0 <= i < |specs| && 0 <= j < |specs|
      && InequalityField(specs[i]).Some? && InequalityField(specs[j]).Some?
      && InequalityField(specs[i]) != InequalityField(specs[j])
  }

  /** Both raise BadRequestException, with different messages. */
  datatype FilterError = InvalidFieldOrOperator | MultipleInequalityFields

  /** What `_formatFilters` returns: the inequality field, if any, and the looked-up filters. */
  datatype Formatted = Formatted(inequalityField: Option<Field>, filters: seq<Filter>)

  /** One turn of the loop in `_formatFilters`. */
  function Step(acc: Formatted, spec: FilterSpec): Result<Formatted, FilterError>
  {
    match Translate(spec)
    case None => Err(InvalidFieldOrOperator)
    case Some(flt) =>
      if IsInequality(flt.op) then
        if acc.inequalityField.Some? && acc.inequalityField.value != flt.field then Err(MultipleInequalityFields)
        else Ok(Formatted(Some(flt.field), acc.filters + [flt]))
      else Ok(Formatted(acc.inequalityField, acc.filters + [flt]))
  }

  /** The outcome of `_formatFilters`: its loop run over the filters from first to last, stopping at
      the first error. */
  function FormatResult(specs: seq<FilterSpec>): Result<Formatted, FilterError>
    decreases |specs|
  {
    if specs == [] then Ok(Formatted(None, []))
    else
      match FormatResult(specs[..|specs| - 1])
      case Err(e) => Err(e)
      case Ok(acc) => Step(acc, specs[|specs| - 1])
  }

  /** On success the output keeps the input's length and order, each filter looked up through the
      tables; the inequality field is absent exactly when every operator is "=", and otherwise it is
      the field of every inequality filter. */
  lemma {:induction false} FormatResultOutput(specs: seq<FilterSpec>)
    requires FormatResult(specs).Ok?
    ensures var out := FormatResult(specs).value;
      && |out.filters| == |specs|
      && (forall i :: 0 <= i < |specs| ==> Translate(specs[i]) == Some(out.filters[i]))
      && (out.inequalityField.None? <==> forall i :: 0 <= i < |specs| ==> !IsInequality(out.filters[i].op))
      && (forall i :: 0 <= i < |specs| && IsInequality(out.filters[i].op) ==>
            out.inequalityField == Some(out.filters[i].field))
  {
    if specs != [] {
      var init := specs[..|specs| - 1];
      FormatResultOutput(init);
      forall i | 0 <= i < |init| ensures specs[i] == init[i] { }
    }
  }

  /** A fault in a prefix of the filters is a fault of the whole batch. */
  lemma PrefixFaults(specs: seq<FilterSpec>, n: nat)
    requires n <= |specs|
    ensures !AllKnown(specs[..n]) ==> !AllKnown(specs)
    ensures TwoInequalityFields(specs[..n]) ==> TwoInequalityFields(specs)
  {
    var init := specs[..n];
    if !AllKnown(init) {
      var i :| 0 <= i < n && Translate(init[i]).None?;
      assert specs[i] == init[i];
    }
    if TwoInequalityFields(init) {
      var i, j :| 0 <= i < n && 0 <= j < n
        && InequalityField(init[i]).Some? && InequalityField(init[j]).Some?
        && InequalityField(init[i]) != InequalityField(init[j]);
      assert specs[i] == init[i] && specs[j] == init[j];
    }
  }

  /** After a successful pass, an inequality filter is on the tracked field. */
  lemma TrackedAt(specs: seq<FilterSpec>, i: int)
    requires FormatResult(specs).Ok? && 0 <= i < |specs| && InequalityField(specs[i]).Some?
    ensures InequalityField(specs[i]) == FormatResult(specs).value.inequalityField
  {
    FormatResultOutput(specs);
    assert Translate(specs[i]) == Some(FormatResult(specs).value.filters[i]);
  }

  /** After a successful pass, every inequality filter is on the tracked field, and a tracked
      field comes from some inequality filter. */
  lemma TrackedField(specs: seq<FilterSpec>)
    requires FormatResult(specs).Ok?
    ensures var tracked := FormatResult(specs).value.inequalityField;
      && (forall i :: 0 <= i < |specs| && InequalityField(specs[i]).Some? ==> InequalityField(specs[i]) == tracked)
      && (tracked.Some? ==> exists i :: 0 <= i < |specs| && InequalityField(specs[i]) == tracked)
  {
    var out := FormatResult(specs).value;
    forall i | 0 <= i < |specs| && InequalityField(specs[i]).Some?
      ensures InequalityField(specs[i]) == out.inequalityField
    {
      TrackedAt(specs, i);
    }
    if out.inequalityField.Some? {
      FormatResultOutput(specs);
      var i :| 0 <= i < |specs| && IsInequality(out.filters[i].op);
      assert Translate(specs[i]) == Some(out.filters[i]);
    }
  }

  /** The last filter compares a second field with an inequality: the batch has two. */
  lemma ClashingLast(specs: seq<FilterSpec>)
    requires |specs| > 0 && FormatResult(specs[..|specs| - 1]).Ok?
    requires var tracked := FormatResult(specs[..|specs| - 1]).value.inequalityField;
      InequalityField(specs[|specs| - 1]).Some? && tracked.Some? && tracked != InequalityField(specs[|specs| - 1])
    ensures TwoInequalityFields(specs)
  {
    var n := |specs| - 1;
    var init := specs[..n];
    TrackedField(init);
    var i :| 0 <= i < n && InequalityField(init[i]) == FormatResult(init).value.inequalityField;
    assert specs[i] == init[i];
  }

  /** The last filter is known and on the tracked field, or an equality: the batch stays valid. */
  lemma AcceptedLast(specs: seq<FilterSpec>)
    requires |specs| > 0 && FormatResult(specs[..|specs| - 1]).Ok?
    requires AllKnown(specs[..|specs| - 1])
    requires Translate(specs[|specs| - 1]).Some?
    requires var tracked := FormatResult(specs[..|specs| - 1]).value.inequalityField;
      InequalityField(specs[|specs| - 1]).Some? && tracked.Some? ==> tracked == InequalityField(specs[|specs| - 1])
    ensures AllKnown(specs) && !TwoInequalityFields(specs)
  {
    var n := |specs| - 1;
    var init := specs[..n];
    var tracked := FormatResult(init).value.inequalityField;
    TrackedField(init);
    forall i | 0 <= i < |specs| ensures Translate(specs[i]).Some? {
      if i < n { assert specs[i] == init[i]; }
    }
    forall i | 0 <= i < |specs| && InequalityField(specs[i]).Some?
      ensures InequalityField(specs[i]) == if tracked.Some? then tracked else InequalityField(specs[n])
    {
      if i < n { assert specs[i] == init[i]; }
    }
  }

  /** The last turn of the loop, after every earlier filter was accepted. */
  lemma LastStep(specs: seq<FilterSpec>)
    requires |specs| > 0
    requires FormatResult(specs[..|specs| - 1]).Ok? && AllKnown(specs[..|specs| - 1])
    ensures FormatResult(specs).Ok? <==> AllKnown(specs) && !TwoInequalityFields(specs)
  {
    var n := |specs| - 1;
    var acc := FormatResult(specs[..n]).value;
    assert FormatResult(specs) == Step(acc, specs[n]);
    if Translate(specs[n]).None? {
      assert !AllKnown(specs);
    } else if InequalityField(specs[n]).Some? && acc.inequalityField.Some? && acc.inequalityField != InequalityField(specs[n]) {
      ClashingLast(specs);
    } else {
      AcceptedLast(specs);
    }
  }

  /** All or nothing: the filters are accepted exactly when every token is known and at most one
      field is compared with inequalities. */
  lemma {:induction false} FormatResultSucceeds(specs: seq<FilterSpec>)
    ensures FormatResult(specs).Ok? <==> AllKnown(specs) && !TwoInequalityFields(specs)
  {
    if specs != [] {
      var n := |specs| - 1;
      FormatResultSucceeds(specs[..n]);
      if FormatResult(specs[..n]).Err? {
        PrefixFaults(specs, n);
      } else {
        LastStep(specs);
      }
    }
  }

  /** Which error is raised: an unknown token only when one exists, the inequality error only when
      two fields are compared with inequalities; and when every token is known, two inequality
      fields always give the inequality error, in whatever order the filters come. */
  lemma {:induction false} FormatResultErrors(specs: seq<FilterSpec>)
    ensures FormatResult(specs) == Err(InvalidFieldOrOperator) ==> !AllKnown(specs)
    ensures FormatResult(specs) == Err(MultipleInequalityFields) ==> TwoInequalityFields(specs)
    ensures AllKnown(specs) && TwoInequalityFields(specs) ==> FormatResult(specs) == Err(MultipleInequalityFields)
  {
    if specs != [] {
      var n := |specs| - 1;
      var init := specs[..n];
      FormatResultErrors(init);
      forall i | 0 <= i < n ensures specs[i] == init[i] { }
      if FormatResult(init).Err? {
        if FormatResult(init).error == InvalidFieldOrOperator {
          var i :| 0 <= i < n && Translate(init[i]).None?;
          assert Translate(specs[i]).None?;
        } else {
          var i, j :| 0 <= i < |init| && 0 <= j < |init|
            && InequalityField(init[i]).Some? && InequalityField(init[j]).Some?
            && InequalityField(init[i]) != InequalityField(init[j]);
          assert specs[i] == init[i] && specs[j] == init[j];
        }
      } else if FormatResult(specs) == Err(MultipleInequalityFields) {
        var acc := FormatResult(init).value;
        FormatResultOutput(init);
        var i :| 0 <= i < n && IsInequality(acc.filters[i].op);
        assert InequalityField(specs[i]) == acc.inequalityField;
      }
      FormatResultSucceeds(specs);
    }
  }

  /** Once a prefix of the filters fails, the whole call fails with that error. */
  lemma {:induction false} FormatResultErrPersists(specs: seq<FilterSpec>, k: nat)
    requires k <= |specs| && FormatResult(specs[..k]).Err?
    ensures FormatResult(specs) == FormatResult(specs[..k])
    decreases |specs| - k
  {
    if k < |specs| {
      assert specs[..k + 1][..k] == specs[..k];
      FormatResultErrPersists(specs, k + 1);
    } else {
      assert specs[..k] == specs;
    }
  }

  /** `_formatFilters`: one pass over the filters with an accumulator and two error exits. */
  method FormatFilters(specs: seq<FilterSpec>) returns (r: Result<Formatted, FilterError>)
    ensures r == FormatResult(specs)
  {
    var formatted: seq<Filter> := [];
    var inequalityField: Option<Field> := None;
    var i := 0;
    while i < |specs|
      invariant 0 <= i <= |specs|
      invariant FormatResult(specs[..i]) == Ok(Formatted(inequalityField, formatted))
    {
      var spec := specs[i];
      assert specs[..i + 1][..i] == specs[..i];
      if spec.field !in FIELDS || spec.operator !in OPERATORS {
        FormatResultErrPersists(specs, i + 1);
        return Err(InvalidFieldOrOperator);
      }
      var field := FIELDS[spec.field];
      var op := OPERATORS[spec.operator];
      if IsInequality(op) {
        if inequalityField.Some? && inequalityField.value != field {
          FormatResultErrPersists(specs, i + 1);
          return Err(MultipleInequalityFields);
        }
        inequalityField := Some(field);
      }
      formatted := formatted + [Filter(field, op, spec.value)];
      i := i + 1;
    }
    assert specs[..i] == specs;
    return Ok(Formatted(inequalityField, formatted));
  }

  /** A sort key of the query. */
  datatype SortKey = ByProperty(field: Field) | ByName

  /** A filter value as the datastore compares it. */
  datatype Value = Text(text: string) | Number(number: int)

  datatype QueryFilter = QueryFilter(field: Field, op: Op, value: Value)

  /** A conference query: its sort keys, then its filters in the order they are applied. */
  datatype Query = Query(order: seq<SortKey>, filters: seq<QueryFilter>)

  /** A filter error, or ValueError from `int()` on a value that is not an integer. */
  datatype QueryError = BadFilter(reason: FilterError) | NotAnInteger(text: string)

  /** The fields whose values `_getQuery` converts with `int()`. */
  predicate IsNumeric(f: Field)
  {
    f == Month || f == MaxAttendees
  }

  /** A looked-up filter with its value converted: an integer for month and maxAttendees, the
      text itself for the other fields; `None` where `int()` would raise. */
  function Coerce(flt: Filter): Option<QueryFilter>
  {
    if IsNumeric(flt.field) then
      match ParseInt(flt.value)
      case None => None
      case Some(n) => Some(QueryFilter(flt.field, flt.op, Number(n)))
    else Some(QueryFilter(flt.field, flt.op, Text(flt.value)))
  }

  /** `_getQuery`: sort by the inequality field and then by name (by name alone when there is no
      inequality), then apply the filters in order with numeric values converted. */
  method GetQuery(specs: seq<FilterSpec>) returns (r: Result<Query, QueryError>)
    ensures FormatResult(specs).Err? ==> r == Err(BadFilter(FormatResult(specs).error))
    ensures FormatResult(specs).Ok? ==>
      (r.Ok? <==> forall i :: 0 <= i < |FormatResult(specs).value.filters| ==>
                    Coerce(FormatResult(specs).value.filters[i]).Some?)
    ensures r.Ok? ==> FormatResult(specs).Ok?
    ensures r.Ok? && FormatResult(specs).Ok? ==>
      var out := FormatResult(specs).value;
      && r.value.order == (if out.inequalityField.Some? then [ByProperty(out.inequalityField.value), ByName] else [ByName])
      && |r.value.filters| == |out.filters| == |specs|
      && (forall i :: 0 <= i < |out.filters| ==> Coerce(out.filters[i]) == Some(r.value.filters[i]))
    ensures r.Ok? ==> forall i :: 0 <= i < |r.value.filters| && IsInequality(r.value.filters[i].op) ==>
      r.value.order[0] == ByProperty(r.value.filters[i].field)
    ensures r.Err? && r.error.NotAnInteger? ==>
      exists i :: 0 <= i < |specs| && Translate(specs[i]).Some? && IsNumeric(Translate(specs[i]).value.field)
        && r.error.text == specs[i].value && ParseInt(specs[i].value).None?
        // the first value `int()` rejects, in input order
        && forall j :: 0 <= j < i ==> Translate(specs[j]).Some? && Coerce(Translate(specs[j]).value).Some?
  {
    var formatted := FormatFilters(specs);
    if formatted.Err? {
      return Err(BadFilter(formatted.error));
    }
    var out := formatted.value;
    FormatResultOutput(specs);
    var order := if out.inequalityField.None? then [ByName] else [ByProperty(out.inequalityField.value), ByName];
    var filters: seq<QueryFilter> := [];
    var i := 0;
    while i < |out.filters|
      invariant 0 <= i <= |out.filters|
      invariant |filters| == i
      invariant forall k :: 0 <= k < i ==> Coerce(out.filters[k]) == Some(filters[k])
    {
      var flt := out.filters[i];
      var value: Value;
      if IsNumeric(flt.field) {
        var n := ParseInt(flt.value);
        if n.None? {
          assert Translate(specs[i]) == Some(flt);
          assert forall j :: 0 <= j < i ==> Translate(specs[j]) == Some(out.filters[j]);
          return Err(NotAnInteger(flt.value));
        }
        value := Number(n.value);
      } else {
        value := Text(flt.value);
      }
      filters := filters + [QueryFilter(flt.field, flt.op, value)];
      i := i + 1;
    }
    return Ok(Query(order, filters));
  }
}
