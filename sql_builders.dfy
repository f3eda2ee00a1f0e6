/** The two SQL texts the store builds at run time, with their bind lists: the SET clause of
    `update_agricultural_production` (whitelisted fields, placeholders numbered in step with
    the bound values, `updated_at` and the record id added last) and the WHERE clause of
    `search_agricultural_production` (optional name and status filters). Placeholders are
    Oracle positional binds `:1`, `:2`, ... */
module SqlBuilders {
  import opened Wrappers
  import opened Calendar
  import opened Digits
  import opened Strings

  /** A value handed to the driver for a placeholder. */
  datatype Value = Null | Integer(i: int) | Number(x: real) | Str(s: string) | Moment(at: DateTime)

  const VALID_FIELDS: seq<string> := [
    "product_name", "quantity", "sale_price", "cost_price", "planting_date", "harvest_date",
    "production_status"]

  const DATE_FIELDS: seq<string> := ["planting_date", "harvest_date"]

  const UPDATE_HEAD: string := "\n        UPDATE agricultural_production " + "\n        SET "
  const UPDATE_WHERE: string := "\n        WHERE id = "
  const UPDATE_TAIL: string := "\n        "

  const SEARCH_BASE: string := SELECT_LINE + DATES_LINE + STAMPS_LINE + FROM_LINE + WHERE_LINE
  const SELECT_LINE: string := "\n        SELECT id, product_name, " + "quantity, sale_price, cost_price, "
  const DATES_LINE: string := "\n               planting_date, " + "harvest_date, production_status, "
  const STAMPS_LINE: string := "\n               created_at, " + "updated_at"
  const FROM_LINE: string := "\n        FROM " + "agricultural_production"
  const WHERE_LINE: string := "\n        WHERE 1=1" + "\n        "
  const NAME_FILTER: string := " AND UPPER(product_name) LIKE UPPER(:1)"
  const STATUS_FILTER: string := " AND production_status = "
  const ORDER_BY: string := " ORDER BY created_at DESC"

  /** Why an update builds no statement: a date text `strptime` rejects (the exception ends
      the update), or no whitelisted field at all. */
  datatype UpdateError = InvalidDate(field: string, text: string) | NoValidFields

  datatype Update = Update(setClauses: seq<string>, values: seq<Value>, sql: string)

  /** The positional bind `:k`. */
  function Placeholder(k: nat): string
  {
    ":" + Decimal(k)
  }

  function SetClause(field: string, k: nat): string
  {
    field + " = " + Placeholder(k)
  }

  /** The value bound for one field: date fields given as text are parsed as `YYYY-MM-DD` to
      a midnight `datetime` (none when the text does not parse); everything else is bound
      as given. */
  function Convert(field: string, v: Value): Option<Value>
  {
    if field in DATE_FIELDS && v.Str? then
      match Parse(v.s)
      case Some(d) => Some(Moment(DateTime(d, 0)))
      case None => None
    else Some(v)
  }

  /** The keyword arguments whose name is whitelisted, in their order. */
  function Whitelisted(kwargs: seq<(string, Value)>): seq<(string, Value)>
  {
    if kwargs == [] then []
    else
      var last := kwargs[|kwargs| - 1];
      Whitelisted(kwargs[..|kwargs| - 1]) + (if last.0 in VALID_FIELDS then [last] else [])
  }

  /** The loop over the keyword arguments: the accepted fields with their bound values, or
      the first date that does not parse. */
  function Accepted(kwargs: seq<(string, Value)>): Result<seq<(string, Value)>, UpdateError>
  {
    if kwargs == [] then Ok([])
    else AcceptOne(Accepted(kwargs[..|kwargs| - 1]), kwargs[|kwargs| - 1])
  }

  /** One turn of that loop: an earlier failure stands, a key outside the whitelist is
      skipped, and a whitelisted one is bound to its converted value. */
  function AcceptOne(sofar: Result<seq<(string, Value)>, UpdateError>, arg: (string, Value))
    : Result<seq<(string, Value)>, UpdateError>
  {
    match sofar
    case Err(e) => Err(e)
    case Ok(acc) =>
      if arg.0 !in VALID_FIELDS then Ok(acc)
      else
        match Convert(arg.0, arg.1)
        case Some(v) => Ok(acc + [(arg.0, v)])
        case None => Err(InvalidDate(arg.0, arg.1.s))
  }

  /** The statement for the accepted fields `acc`: the k-th SET entry binds `:k`, then
      `updated_at` binds the current time, and the WHERE clause binds the record id. */
  function UpdateStatement(acc: seq<(string, Value)>, recordId: int, now: DateTime): Update
  {
    var n := |acc|;
    var clauses := seq(n, k requires 0 <= k < n => SetClause(acc[k].0, k + 1)) + [SetClause("updated_at", n + 1)];
    var values := seq(n, k requires 0 <= k < n => acc[k].1) + [Moment(now), Integer(recordId)];
    Update(clauses, values, UPDATE_HEAD + Join(clauses, ", ") + UPDATE_WHERE + Placeholder(n + 2) + UPDATE_TAIL)
  }

  /** What the update builder produces for these keyword arguments. */
  function UpdateFor(recordId: int, kwargs: seq<(string, Value)>, now: DateTime): Result<Update, UpdateError>
  {
    match Accepted(kwargs)
    case Err(e) => Err(e)
    case Ok(acc) => if acc == [] then Err(NoValidFields) else Ok(UpdateStatement(acc, recordId, now))
  }

  // ---------------------------------------------------------------------------
  // The builders

  /** The body of `update_agricultural_production` up to the `execute` call; `now` stands for
      `datetime.now()`. */
  method BuildUpdate(recordId: int, kwargs: seq<(string, Value)>, now: DateTime)
    returns (result: Result<Update, UpdateError>)
    ensures result == UpdateFor(recordId, kwargs, now)
  {
    var updateFields: seq<string> := [];
    var values: seq<Value> := [];
    var i := 0;
    while i < |kwargs|
      invariant 0 <= i <= |kwargs|
      invariant Accepted(kwargs[..i]).Ok?
      invariant NumberedInStep(updateFields, values, Accepted(kwargs[..i]).value)
    {
      var (field, value) := kwargs[i];
      if field in VALID_FIELDS {
        var bound := value;
        if field in DATE_FIELDS && value.Str? {
          var parsed := Parse(value.s);
          if parsed.None? {
            RejectArgStep(kwargs, i, recordId, now);
            return Err(InvalidDate(field, value.s));
          }
          bound := Moment(DateTime(parsed.value, 0));
        }
        BindArgStep(updateFields, values, kwargs, i, bound);
        updateFields := updateFields + [SetClause(field, |values| + 1)];
        values := values + [bound];
      } else {
        SkipArgStep(kwargs, i);
      }
      i := i + 1;
    }
    assert kwargs[..i] == kwargs;
    if updateFields == [] {
      return Err(NoValidFields);
    }
    ghost var acc := Accepted(kwargs).value;
    NumberedFinish(updateFields, values, acc, recordId, now);
    updateFields := updateFields + [SetClause("updated_at", |values| + 1)];
    values := values + [Moment(now)];
    values := values + [Integer(recordId)];
    var sql := UPDATE_HEAD + Join(updateFields, ", ") + UPDATE_WHERE + Placeholder(|values|) + UPDATE_TAIL;
    return Ok(Update(updateFields, values, sql));
  }

  /** The loop's invariant: SET entries and bound values grow in step with the accepted
      fields, entry k (from 0) binding `:(k+1)` to the k-th accepted value. */
  predicate NumberedInStep(updateFields: seq<string>, values: seq<Value>, acc: seq<(string, Value)>)
  {
    && |updateFields| == |values| == |acc|
    && forall k :: 0 <= k < |values| ==> updateFields[k] == SetClause(acc[k].0, k + 1) && values[k] == acc[k].1
  }

  /** A turn over a key outside the whitelist leaves the accepted fields as they were. */
  lemma SkipArgStep(kwargs: seq<(string, Value)>, i: nat)
    requires i < |kwargs| && kwargs[i].0 !in VALID_FIELDS
    requires Accepted(kwargs[..i]).Ok?
    ensures Accepted(kwargs[..i + 1]) == Accepted(kwargs[..i])
  {
    assert kwargs[..i + 1] == kwargs[..i] + [kwargs[i]];
    AcceptedAppend(kwargs[..i], kwargs[i]);
  }

  /** A turn over a whitelisted key whose value converts adds one SET entry and one value in
      step with the accepted fields. */
  lemma BindArgStep(updateFields: seq<string>, values: seq<Value>, kwargs: seq<(string, Value)>, i: nat, bound: Value)
    requires i < |kwargs| && kwargs[i].0 in VALID_FIELDS
    requires Convert(kwargs[i].0, kwargs[i].1) == Some(bound)
    requires Accepted(kwargs[..i]).Ok?
    requires NumberedInStep(updateFields, values, Accepted(kwargs[..i]).value)
    ensures Accepted(kwargs[..i + 1]).Ok?
    ensures NumberedInStep(updateFields + [SetClause(kwargs[i].0, |values| + 1)], values + [bound],
                           Accepted(kwargs[..i + 1]).value)
  {
    assert kwargs[..i + 1] == kwargs[..i] + [kwargs[i]];
    AcceptedAppend(kwargs[..i], kwargs[i]);
    NumberedStep(updateFields, values, Accepted(kwargs[..i]).value, kwargs[i].0, bound);
  }

  /** A turn over a whitelisted date text that does not parse decides the outcome. */
  lemma RejectArgStep(kwargs: seq<(string, Value)>, i: nat, recordId: int, now: DateTime)
    requires i < |kwargs| && kwargs[i].0 in VALID_FIELDS
    requires Convert(kwargs[i].0, kwargs[i].1).None?
    requires Accepted(kwargs[..i]).Ok?
    ensures kwargs[i].1.Str?
    ensures UpdateFor(recordId, kwargs, now) == Err(InvalidDate(kwargs[i].0, kwargs[i].1.s))
  {
    assert kwargs[..i + 1] == kwargs[..i] + [kwargs[i]];
    AcceptedAppend(kwargs[..i], kwargs[i]);
    AcceptedErrorSticks(kwargs, i + 1);
  }

  lemma NumberedStep(updateFields: seq<string>, values: seq<Value>, acc: seq<(string, Value)>, field: string, v: Value)
    requires NumberedInStep(updateFields, values, acc)
    ensures NumberedInStep(updateFields + [SetClause(field, |values| + 1)], values + [v], acc + [(field, v)])
  {
  }

  lemma NumberedFinish(updateFields: seq<string>, values: seq<Value>, acc: seq<(string, Value)>, recordId: int, now: DateTime)
    requires NumberedInStep(updateFields, values, acc)
    ensures var u := UpdateStatement(acc, recordId, now);
      && updateFields + [SetClause("updated_at", |values| + 1)] == u.setClauses
      && values + [Moment(now)] + [Integer(recordId)] == u.values
  {
  }

  /** Python truthiness of an optional text argument: `None` and "" are false. */
  predicate Given(arg: Option<string>)
  {
    arg.Some? && arg.value != ""
  }

  /** The body of `search_agricultural_production` up to the `execute` call. */
  method BuildSearch(productName: Option<string>, status: Option<string>) returns (sql: string, params: seq<string>)
    ensures |params| == (if Given(productName) then 1 else 0) + (if Given(status) then 1 else 0)
    ensures Given(productName) ==> params[0] == "%" + productName.value + "%"
    ensures Given(status) ==> params[|params| - 1] == status.value
    ensures sql == SEARCH_BASE
                   + (if Given(productName) then NAME_FILTER else "")
                   + (if Given(status) then STATUS_FILTER + Placeholder(|params|) else "")
                   + ORDER_BY
    ensures CountChar(sql, ':') == |params|
  {
    sql := SEARCH_BASE;
    params := [];
    if Given(productName) {
      sql := sql + NAME_FILTER;
      params := params + ["%" + productName.value + "%"];
    }
    ghost var filtered := sql;
    if Given(status) {
      var paramNum := |params| + 1;
      sql := sql + (STATUS_FILTER + Placeholder(paramNum));
      params := params + [status.value];
    }
    sql := sql + ORDER_BY;
    SearchPlaceholders(productName, status, filtered, sql);
  }

  lemma SearchPlaceholders(productName: Option<string>, status: Option<string>, filtered: string, sql: string)
    requires filtered == SEARCH_BASE + (if Given(productName) then NAME_FILTER else "")
    requires sql == filtered
                    + (if Given(status) then STATUS_FILTER + Placeholder((if Given(productName) then 1 else 0) + 1) else "")
                    + ORDER_BY
    ensures CountChar(sql, ':') == (if Given(productName) then 1 else 0) + (if Given(status) then 1 else 0)
  {
    var k := (if Given(productName) then 1 else 0) + 1;
    SearchTextHasNoColon();
    CountCharAbsent(SEARCH_BASE, ':');
    CountCharAbsent(ORDER_BY, ':');
    CountCharAbsent(STATUS_FILTER, ':');
    CountCharAbsent("", ':');
    NameFilterHasOneBind();
    PlaceholderHasOneColon(k);
    CountCharAppend(SEARCH_BASE, if Given(productName) then NAME_FILTER else "", ':');
    CountCharAppend(STATUS_FILTER, Placeholder(k), ':');
    var statusPart := if Given(status) then STATUS_FILTER + Placeholder(k) else "";
    CountCharAppend(filtered, statusPart, ':');
    CountCharAppend(filtered + statusPart, ORDER_BY, ':');
  }

  // ---------------------------------------------------------------------------
  // Counting placeholders

  /** The fixed text of the update statement binds nothing: it contains no ':'. */
  lemma UpdateTextHasNoColon()
    ensures ':' !in UPDATE_HEAD && ':' !in UPDATE_WHERE && ':' !in UPDATE_TAIL
  {
    assert ':' !in "\n        UPDATE agricultural_production ";
    assert ':' !in "\n        SET ";
  }

  /** The fixed text of the search statement binds nothing: it contains no ':'. */
  lemma SearchTextHasNoColon()
    ensures ':' !in SEARCH_BASE && ':' !in STATUS_FILTER && ':' !in ORDER_BY
  {
    SelectLineHasNoColon();
    DatesLineHasNoColon();
    assert ':' !in "\n               created_at, " && ':' !in "updated_at";
    assert ':' !in "\n        FROM " && ':' !in "agricultural_production";
    assert ':' !in "\n        WHERE 1=1" && ':' !in "\n        ";
  }

  lemma SelectLineHasNoColon()
    ensures ':' !in SELECT_LINE
  {
    assert ':' !in "\n        SELECT id, product_name, ";
    assert ':' !in "quantity, sale_price, cost_price, ";
  }

  lemma DatesLineHasNoColon()
    ensures ':' !in DATES_LINE
  {
    assert ':' !in "\n               planting_date, ";
    assert ':' !in "harvest_date, production_status, ";
  }

  lemma {:induction false} CountCharAbsent(s: string, c: char)
    requires c !in s
    ensures CountChar(s, c) == 0
  {
    if s != [] {
      assert c !in s[..|s| - 1];
      CountCharAbsent(s[..|s| - 1], c);
    }
  }

  lemma DigitsHaveNoColon(s: string)
    requires AllDigits(s)
    ensures CountChar(s, ':') == 0
  {
    assert forall i :: 0 <= i < |s| ==> s[i] != ':' by {
      forall i | 0 <= i < |s| ensures s[i] != ':' {
        assert IsDigit(s[i]);
      }
    }
    CountCharAbsent(s, ':');
  }

  lemma PlaceholderHasOneColon(k: nat)
    ensures CountChar(Placeholder(k), ':') == 1
  {
    DigitsHaveNoColon(Decimal(k));
    CountCharAppend(":", Decimal(k), ':');
    assert CountChar(":", ':') == CountChar("", ':') + 1;
  }

  lemma NameFilterHasOneBind()
    ensures CountChar(NAME_FILTER, ':') == 1
  {
    var before, after := " AND UPPER(product_name) LIKE UPPER(", ":1)";
    assert NAME_FILTER == before + after;
    CountCharAbsent(before, ':');
    CountCharAbsent(after[1..], ':');
    CountCharAppend(":", after[1..], ':');
    assert after == ":" + after[1..];
    assert CountChar(":", ':') == CountChar("", ':') + 1;
    CountCharAppend(before, after, ':');
  }

  /** A SET entry for a field name without ':' holds exactly one placeholder. */
  lemma SetClauseHasOneColon(field: string, k: nat)
    requires ':' !in field
    ensures CountChar(SetClause(field, k), ':') == 1
  {
    CountCharAbsent(field, ':');
    CountCharAbsent(" = ", ':');
    PlaceholderHasOneColon(k);
    CountCharAppend(field, " = ", ':');
    CountCharAppend(field + " = ", Placeholder(k), ':');
  }

  lemma {:induction false} EachClauseOneColon(clauses: seq<string>)
    requires forall k :: 0 <= k < |clauses| ==> CountChar(clauses[k], ':') == 1
    ensures SumCounts(clauses, ':') == |clauses|
  {
    if clauses != [] {
      EachClauseOneColon(clauses[..|clauses| - 1]);
    }
  }

  // ---------------------------------------------------------------------------
  // Properties of the update builder

  lemma AcceptedAppend(kwargs: seq<(string, Value)>, arg: (string, Value))
    ensures Accepted(kwargs + [arg]) == AcceptOne(Accepted(kwargs), arg)
    ensures Whitelisted(kwargs + [arg]) == Whitelisted(kwargs) + (if arg.0 in VALID_FIELDS then [arg] else [])
  {
    assert (kwargs + [arg])[..|kwargs|] == kwargs;
  }

  /** The accepted fields are exactly the whitelisted keyword arguments, each with its
      converted value, unless some whitelisted date text does not parse; keys outside the
      whitelist are never bound. */
  lemma {:induction false} AcceptedCharacterised(kwargs: seq<(string, Value)>)
    ensures var w := Whitelisted(kwargs);
      && (Accepted(kwargs).Ok? <==> forall k :: 0 <= k < |w| ==> Convert(w[k].0, w[k].1).Some?)
      && (Accepted(kwargs).Ok? ==>
            |Accepted(kwargs).value| == |w|
            && forall k :: 0 <= k < |w| ==> Accepted(kwargs).value[k] == (w[k].0, Convert(w[k].0, w[k].1).value))
  {
    if kwargs != [] {
      var init, last := kwargs[..|kwargs| - 1], kwargs[|kwargs| - 1];
      assert kwargs == init + [last];
      AcceptedAppend(init, last);
      AcceptedCharacterised(init);
      var w0 := Whitelisted(init);
      if last.0 in VALID_FIELDS {
        var w := w0 + [last];
        assert forall k :: 0 <= k < |w0| ==> w[k] == w0[k];
        assert w[|w0|] == last;
        if Accepted(init).Err? {
          var k :| 0 <= k < |w0| && Convert(w0[k].0, w0[k].1).None?;
          assert Convert(w[k].0, w[k].1).None?;
        } else if Convert(last.0, last.1).None? {
          assert Convert(w[|w0|].0, w[|w0|].1).None?;
        }
      } else {
        assert w0 + [] == w0;
        assert Whitelisted(kwargs) == w0 && Accepted(kwargs) == Accepted(init);
      }
    }
  }

  /** A failed update names a whitelisted date argument whose text does not parse. */
  lemma {:induction false} AcceptedErrorNamesDate(kwargs: seq<(string, Value)>)
    requires Accepted(kwargs).Err?
    ensures var w := Whitelisted(kwargs);
      exists k :: 0 <= k < |w| && Convert(w[k].0, w[k].1).None?
                  && Accepted(kwargs).error == InvalidDate(w[k].0, w[k].1.s)
  {
    var init, last := kwargs[..|kwargs| - 1], kwargs[|kwargs| - 1];
    assert kwargs == init + [last];
    AcceptedAppend(init, last);
    var w0 := Whitelisted(init);
    var w := Whitelisted(kwargs);
    if Accepted(init).Err? {
      AcceptedErrorNamesDate(init);
      var k :| 0 <= k < |w0| && Convert(w0[k].0, w0[k].1).None?
               && Accepted(init).error == InvalidDate(w0[k].0, w0[k].1.s);
      assert w[k] == w0[k];
    } else {
      assert w[|w0|] == last;
    }
  }

  /** The whitelisted arguments are arguments whose names are in the whitelist, and every such
      argument is among them. */
  lemma {:induction false} WhitelistedExactly(kwargs: seq<(string, Value)>)
    ensures forall a :: a in Whitelisted(kwargs) <==> a in kwargs && a.0 in VALID_FIELDS
  {
    if kwargs != [] {
      WhitelistedExactly(kwargs[..|kwargs| - 1]);
      assert kwargs == kwargs[..|kwargs| - 1] + [kwargs[|kwargs| - 1]];
    }
  }

  /** Once a date fails to parse the update is over: later arguments change nothing. */
  lemma {:induction false} AcceptedErrorSticks(kwargs: seq<(string, Value)>, i: nat)
    requires i <= |kwargs| && Accepted(kwargs[..i]).Err?
    ensures Accepted(kwargs) == Accepted(kwargs[..i])
    decreases |kwargs| - i
  {
    if i < |kwargs| {
      assert kwargs[..i + 1] == kwargs[..i] + [kwargs[i]];
      AcceptedAppend(kwargs[..i], kwargs[i]);
      AcceptedErrorSticks(kwargs, i + 1);
    } else {
      assert kwargs[..i] == kwargs;
    }
  }

  /** No statement is built exactly when no argument is whitelisted or a whitelisted date
      text does not parse. */
  lemma UpdateFailures(recordId: int, kwargs: seq<(string, Value)>, now: DateTime)
    ensures UpdateFor(recordId, kwargs, now) == Err(NoValidFields) <==> Whitelisted(kwargs) == []
    ensures UpdateFor(recordId, kwargs, now).Err? <==>
      Whitelisted(kwargs) == []
      || exists k :: 0 <= k < |Whitelisted(kwargs)| && Convert(Whitelisted(kwargs)[k].0, Whitelisted(kwargs)[k].1).None?
  {
    AcceptedCharacterised(kwargs);
    if Accepted(kwargs).Err? {
      AcceptedErrorNamesDate(kwargs);
    }
  }

  /** The layout of a statement: there are n+1 SET entries for n accepted fields and n+2
      bound values; entry k (from 1) binds `:k` to value k, `updated_at` is the last SET
      entry and is bound to the current time, and the WHERE clause binds `:(n+2)`, the last
      value, to the record id. */
  lemma UpdateLayout(acc: seq<(string, Value)>, recordId: int, now: DateTime)
    ensures var u := UpdateStatement(acc, recordId, now); var n := |acc|;
      && |u.setClauses| == n + 1 && |u.values| == n + 2
      && (forall k :: 1 <= k <= n ==> u.setClauses[k - 1] == acc[k - 1].0 + " = " + Placeholder(k)
                                       && u.values[k - 1] == acc[k - 1].1)
      && u.setClauses[n] == "updated_at = " + Placeholder(n + 1) && u.values[n] == Moment(now)
      && u.values[n + 1] == Integer(recordId)
      && u.sql == UPDATE_HEAD + Join(u.setClauses, ", ") + UPDATE_WHERE + Placeholder(|u.values|) + UPDATE_TAIL
  {
  }

  /** Every SET entry of a statement over whitelisted fields holds exactly one ':'. */
  lemma ClausesHaveOneColonEach(acc: seq<(string, Value)>, recordId: int, now: DateTime)
    requires forall k :: 0 <= k < |acc| ==> acc[k].0 in VALID_FIELDS
    ensures SumCounts(UpdateStatement(acc, recordId, now).setClauses, ':') == |acc| + 1
  {
    var clauses := UpdateStatement(acc, recordId, now).setClauses;
    var n := |acc|;
    forall k | 0 <= k < |clauses| ensures CountChar(clauses[k], ':') == 1 {
      if k < n {
        assert acc[k].0 in VALID_FIELDS;
        SetClauseHasOneColon(acc[k].0, k + 1);
      } else {
        SetClauseHasOneColon("updated_at", n + 1);
      }
    }
    EachClauseOneColon(clauses);
  }

  /** The statement text holds exactly as many ':' as there are bound values, so every
      placeholder has its value and no value is left without a placeholder. */
  lemma UpdatePlaceholderCount(acc: seq<(string, Value)>, recordId: int, now: DateTime)
    requires forall k :: 0 <= k < |acc| ==> acc[k].0 in VALID_FIELDS
    ensures var u := UpdateStatement(acc, recordId, now);
      CountChar(u.sql, ':') == |u.values| == |acc| + 2
  {
    var u := UpdateStatement(acc, recordId, now);
    var n := |acc|;
    ClausesHaveOneColonEach(acc, recordId, now);
    CountCharAbsent(", ", ':');
    CountCharJoin(u.setClauses, ", ", ':');
    var joined := Join(u.setClauses, ", ");
    UpdateTextHasNoColon();
    CountCharAbsent(UPDATE_HEAD, ':');
    CountCharAbsent(UPDATE_WHERE, ':');
    CountCharAbsent(UPDATE_TAIL, ':');
    PlaceholderHasOneColon(n + 2);
    var p := Placeholder(n + 2);
    assert u.sql == UPDATE_HEAD + joined + UPDATE_WHERE + p + UPDATE_TAIL;
    CountCharAppend(UPDATE_HEAD, joined, ':');
    CountCharAppend(UPDATE_HEAD + joined, UPDATE_WHERE, ':');
    CountCharAppend(UPDATE_HEAD + joined + UPDATE_WHERE, p, ':');
    CountCharAppend(UPDATE_HEAD + joined + UPDATE_WHERE + p, UPDATE_TAIL, ':');
  }

  /** A placeholder reads back as its number, so distinct positions have distinct binds. */
  lemma PlaceholderReadsBack(k: nat)
    ensures var p := Placeholder(k); p[0] == ':' && AllDigits(p[1..]) && ValueOf(p[1..]) == k
  {
    var p := Placeholder(k);
    assert p[1..] == Decimal(k);
    DecimalValue(k);
  }

  /** The worked update: an unknown key is dropped, the harvest date text is parsed, and the
      remaining numbering follows. */
  lemma UpdateExample(now: DateTime)
    ensures var kwargs := [("quantity", Number(120.0)), ("colour", Str("red")), ("harvest_date", Str("2024-03-01"))];
            var c: CalendarDate := Date(2024, 3, 1);
            var r := UpdateFor(7, kwargs, now);
            && r.Ok?
            && r.value.setClauses == ["quantity = :1", "harvest_date = :2", "updated_at = :3"]
            && r.value.values == [Number(120.0), Moment(DateTime(c, 0)), Moment(now), Integer(7)]
  {
    var c: CalendarDate := Date(2024, 3, 1);
    var acc := [("quantity", Number(120.0)), ("harvest_date", Moment(DateTime(c, 0)))];
    AcceptedExample();
    var u := UpdateStatement(acc, 7, now);
    UpdateLayout(acc, 7, now);
    SetClauseExamples();
    assert u.setClauses == [u.setClauses[0], u.setClauses[1], u.setClauses[2]];
    assert u.values == [u.values[0], u.values[1], u.values[2], u.values[3]];
  }

  lemma SetClauseExamples()
    ensures "quantity" + " = " + Placeholder(1) == "quantity = :1"
    ensures "harvest_date" + " = " + Placeholder(2) == "harvest_date = :2"
    ensures "updated_at = " + Placeholder(3) == "updated_at = :3"
  {
    assert Decimal(1) == "1" && Decimal(2) == "2" && Decimal(3) == "3";
  }

  lemma AcceptedExample()
    ensures var c: CalendarDate := Date(2024, 3, 1);
      Accepted([("quantity", Number(120.0)), ("colour", Str("red")), ("harvest_date", Str("2024-03-01"))])
      == Ok([("quantity", Number(120.0)), ("harvest_date", Moment(DateTime(c, 0)))])
  {
    var c: CalendarDate := Date(2024, 3, 1);
    var moment := Moment(DateTime(c, 0));
    var q, colour, harvest := ("quantity", Number(120.0)), ("colour", Str("red")), ("harvest_date", Str("2024-03-01"));
    AcceptOneExamples();
    AcceptedAppend([], q);
    assert [] + [q] == [q];
    AcceptedAppend([q], colour);
    assert [q] + [colour] == [q, colour];
    AcceptedAppend([q, colour], harvest);
    assert [q, colour] + [harvest] == [q, colour, harvest];
  }

  lemma AcceptOneExamples()
    ensures var c: CalendarDate := Date(2024, 3, 1);
      var q := ("quantity", Number(120.0));
      && AcceptOne(Ok([]), q) == Ok([q])
      && AcceptOne(Ok([q]), ("colour", Str("red"))) == Ok([q])
      && AcceptOne(Ok([q]), ("harvest_date", Str("2024-03-01")))
         == Ok([q, ("harvest_date", Moment(DateTime(c, 0)))])
  {
    var q := ("quantity", Number(120.0));
    assert "quantity" == VALID_FIELDS[1] && "quantity" !in DATE_FIELDS;
    assert "colour" !in VALID_FIELDS;
    assert "harvest_date" == VALID_FIELDS[5];
    HarvestTextExample();
    assert [] + [q] == [q];
    var c: CalendarDate := Date(2024, 3, 1);
    assert [q] + [("harvest_date", Moment(DateTime(c, 0)))] == [q, ("harvest_date", Moment(DateTime(c, 0)))];
  }

  lemma HarvestTextExample()
    ensures var c: CalendarDate := Date(2024, 3, 1);
      Convert("harvest_date", Str("2024-03-01")) == Some(Moment(DateTime(c, 0)))
  {
    var c: CalendarDate := Date(2024, 3, 1);
    FormatExamples();
    ParseFormat(c);
    assert "harvest_date" == DATE_FIELDS[1];
  }
}
