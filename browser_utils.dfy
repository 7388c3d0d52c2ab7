/**
 * The page-independent helpers of the browser scripts: reading the query
 * string into an object, writing filters back into it, and grouping the
 * digits of a count with commas. A query string is modelled as the list of
 * its decoded name/value pairs, in order; percent-decoding, the browser
 * history and the debounce timer are left out.
 */
module BrowserUtils {
  import opened JsText

  /** The decoded pairs of a query string, in order; a name may repeat. */
  type Query = seq<(string, string)>

  // ---------------------------------------------------------------------
  // getUrlParams
  // ---------------------------------------------------------------------

  /** The names that occur in the query. */
  function Names(q: Query): set<string> {
    set i | 0 <= i < |q| :: q[i].0
  }

  /** `result[key] = value` for each pair in turn: the object the loop builds. */
  function ParamsObject(q: Query): (m: map<string, string>)
    ensures m.Keys == Names(q)
  {
    if q == [] then map[]
    else
      var init := q[..|q| - 1];
      var m := ParamsObject(init)[q[|q| - 1].0 := q[|q| - 1].1];
      assert Names(q) == Names(init) + {q[|q| - 1].0} by {
        forall x | x in Names(q) ensures x in Names(init) + {q[|q| - 1].0} {
          var i :| 0 <= i < |q| && q[i].0 == x;
          if i < |q| - 1 {
            assert init[i] == q[i];
          }
        }
        forall x | x in Names(init) ensures x in Names(q) {
          var i :| 0 <= i < |init| && init[i].0 == x;
          assert q[i] == init[i];
        }
      }
      m
  }

  /** A repeated name keeps the value of its last pair. */
  lemma {:induction false} LastValueWins(q: Query, i: nat)
    requires i < |q|
    requires forall j :: i < j < |q| ==> q[j].0 != q[i].0
    ensures q[i].0 in ParamsObject(q) && ParamsObject(q)[q[i].0] == q[i].1
  {
    if i < |q| - 1 {
      var init := q[..|q| - 1];
      assert init[i] == q[i];
      LastValueWins(init, i);
    }
  }

  /** `getUrlParams()` over the decoded pairs of the current query string. */
  method GetUrlParams(q: Query) returns (result: map<string, string>)
    ensures result == ParamsObject(q)
  {
    result := map[];
    for k := 0 to |q|
      invariant result == ParamsObject(q[..k])
    {
      assert q[..k + 1][..k] == q[..k];
      var (key, value) := q[k];
      result := result[key := value];
    }
    assert q[..|q|] == q;
  }

  // ---------------------------------------------------------------------
  // updateUrl
  // ---------------------------------------------------------------------

  /** The values of the pairs named `name`, in order. */
  function Values(q: Query, name: string): seq<string> {
    if q == [] then []
    else (if q[0].0 == name then [q[0].1] else []) + Values(q[1..], name)
  }

  /** `URLSearchParams.prototype.delete(name)`: every pair with that name goes. */
  function DeleteParam(q: Query, name: string): (r: Query)
    ensures |r| <= |q|
  {
    if q == [] then []
    else if q[0].0 == name then DeleteParam(q[1..], name)
    else [q[0]] + DeleteParam(q[1..], name)
  }

  /**
   * `URLSearchParams.prototype.set(name, value)`: the first pair with that
   * name takes the value and the later ones go; with none, the pair is
   * appended.
   */
  function SetParam(q: Query, name: string, value: string): (r: Query)
  {
    if q == [] then [(name, value)]
    else if q[0].0 == name then [(name, value)] + DeleteParam(q[1..], name)
    else [q[0]] + SetParam(q[1..], name, value)
  }

  /** After a delete no pair has the name, and the pairs of other names stay as they were. */
  lemma {:induction false} DeleteParamValues(q: Query, name: string, other: string)
    ensures Values(DeleteParam(q, name), name) == []
    ensures other != name ==> Values(DeleteParam(q, name), other) == Values(q, other)
  {
    if q != [] {
      DeleteParamValues(q[1..], name, other);
    }
  }

  /** Deleting twice is deleting once. */
  lemma {:induction false} DeleteParamIdempotent(q: Query, name: string)
    ensures DeleteParam(DeleteParam(q, name), name) == DeleteParam(q, name)
  {
    if q != [] {
      DeleteParamIdempotent(q[1..], name);
    }
  }

  /**
   * After a set the name has exactly the one value, and apart from that
   * name the query is unchanged, order included.
   */
  lemma {:induction false} SetParamEffect(q: Query, name: string, value: string)
    ensures Values(SetParam(q, name, value), name) == [value]
    ensures DeleteParam(SetParam(q, name, value), name) == DeleteParam(q, name)
  {
    if q == [] {
    } else if q[0].0 == name {
      DeleteParamValues(q[1..], name, name);
      DeleteParamIdempotent(q[1..], name);
    } else {
      SetParamEffect(q[1..], name, value);
    }
  }

  /** A set leaves the values of every other name as they were. */
  lemma SetParamOthers(q: Query, name: string, value: string, other: string)
    requires other != name
    ensures Values(SetParam(q, name, value), other) == Values(q, other)
  {
    SetParamEffect(q, name, value);
    DeleteParamValues(SetParam(q, name, value), name, other);
    DeleteParamValues(q, name, other);
  }

  /** A value of the filters object: a string or a number. */
  datatype ParamValue = Str(s: string) | Number(n: Num)

  /** JavaScript truthiness: the empty string, 0 and NaN are falsy. */
  predicate Truthy(v: ParamValue) {
    match v
    case Str(s) => s != []
    case Number(n) => NumTruthy(n)
  }

  /** `String(value)` for a truthy value. */
  function ValueString(v: ParamValue): string {
    match v
    case Str(s) => s
    case Number(n) => if n.NaN? then "NaN" else IntToString(n.value)
  }

  /** One step of `updateUrl`: a truthy value is set, a falsy one deleted. */
  function Apply(q: Query, p: (string, ParamValue)): Query {
    if Truthy(p.1) then SetParam(q, p.0, ValueString(p.1)) else DeleteParam(q, p.0)
  }

  /** The steps of `updateUrl` over the filters object, key by key. */
  function ApplyAll(q: Query, params: seq<(string, ParamValue)>): Query {
    if params == [] then q else Apply(ApplyAll(q, params[..|params| - 1]), params[|params| - 1])
  }

  /** The keys of a filters object are distinct. */
  predicate DistinctKeys(params: seq<(string, ParamValue)>) {
    forall i, j :: 0 <= i < j < |params| ==> params[i].0 != params[j].0
  }

  /** A step for one name leaves the values of every other name as they were. */
  lemma ApplyOthers(q: Query, p: (string, ParamValue), other: string)
    requires other != p.0
    ensures Values(Apply(q, p), other) == Values(q, other)
  {
    if Truthy(p.1) {
      SetParamOthers(q, p.0, ValueString(p.1), other);
    } else {
      DeleteParamValues(q, p.0, other);
    }
  }

  /**
   * After `updateUrl`, each key of the filters object has exactly its value
   * in the query when the value is truthy, and no value when it is falsy.
   */
  lemma {:induction false} UpdatedKey(q: Query, params: seq<(string, ParamValue)>, i: nat)
    requires DistinctKeys(params) && i < |params|
    ensures Values(ApplyAll(q, params), params[i].0) ==
            if Truthy(params[i].1) then [ValueString(params[i].1)] else []
  {
    var init := params[..|params| - 1];
    var last := params[|params| - 1];
    if i == |params| - 1 {
      if Truthy(last.1) {
        SetParamEffect(ApplyAll(q, init), last.0, ValueString(last.1));
      } else {
        DeleteParamValues(ApplyAll(q, init), last.0, last.0);
      }
    } else {
      assert init[i] == params[i];
      UpdatedKey(q, init, i);
      ApplyOthers(ApplyAll(q, init), last, params[i].0);
    }
  }

  /** A name that is not a key of the filters object keeps its values. */
  lemma {:induction false} UntouchedKey(q: Query, params: seq<(string, ParamValue)>, other: string)
    requires forall i :: 0 <= i < |params| ==> params[i].0 != other
    ensures Values(ApplyAll(q, params), other) == Values(q, other)
  {
    if params != [] {
      var init := params[..|params| - 1];
      UntouchedKey(q, init, other);
      ApplyOthers(ApplyAll(q, init), params[|params| - 1], other);
    }
  }

  /** `updateUrl(params)` on the current query: the query that is pushed. */
  method UpdateUrl(query: Query, params: seq<(string, ParamValue)>) returns (url: Query)
    ensures url == ApplyAll(query, params)
  {
    url := query;
    for k := 0 to |params|
      invariant url == ApplyAll(query, params[..k])
    {
      assert params[..k + 1][..k] == params[..k];
      var (key, value) := params[k];
      if Truthy(value) {
        url := SetParam(url, key, ValueString(value));
      } else {
        url := DeleteParam(url, key);
      }
    }
    assert params[..|params|] == params;
  }

  // ---------------------------------------------------------------------
  // formatNumber
  // ---------------------------------------------------------------------

  /** The digits in groups: a leading group of one to three, then groups of three. */
  function Groups(ds: string): (g: seq<string>)
    requires ds != []
    ensures |g| >= 1 && 1 <= |g[0]| <= 3
    ensures forall i :: 1 <= i < |g| ==> |g[i]| == 3
    decreases |ds|
  {
    if |ds| <= 3 then [ds] else Groups(ds[..|ds| - 3]) + [ds[|ds| - 3..]]
  }

  /** The concatenation of the groups. */
  function Concat(g: seq<string>): string {
    if g == [] then [] else g[0] + Concat(g[1..])
  }

  lemma {:induction false} ConcatSnoc(g: seq<string>, x: string)
    ensures Concat(g + [x]) == Concat(g) + x
  {
    if g != [] {
      assert (g + [x])[1..] == g[1..] + [x];
      ConcatSnoc(g[1..], x);
    }
  }

  /** Read in order, the groups are the digits. */
  lemma {:induction false} GroupsConcat(ds: string)
    requires ds != []
    ensures Concat(Groups(ds)) == ds
    decreases |ds|
  {
    if |ds| > 3 {
      GroupsConcat(ds[..|ds| - 3]);
      ConcatSnoc(Groups(ds[..|ds| - 3]), ds[|ds| - 3..]);
      assert ds == ds[..|ds| - 3] + ds[|ds| - 3..];
    } else {
      assert Concat([ds]) == ds + Concat([]);
    }
  }

  /** Every group is a slice of the digits. */
  lemma {:induction false} GroupsOfDigits(ds: string)
    requires ds != [] && forall i :: 0 <= i < |ds| ==> IsDigit(ds[i])
    ensures forall i :: 0 <= i < |Groups(ds)| ==> forall j :: 0 <= j < |Groups(ds)[i]| ==> IsDigit(Groups(ds)[i][j])
    decreases |ds|
  {
    if |ds| > 3 {
      GroupsOfDigits(ds[..|ds| - 3]);
    }
  }

  /**
   * `s.replace(/\B(?=(\d{3})+(?!\d))/g, ',')` on a string of digits: a comma
   * before every place that has a positive multiple of three digits after it.
   */
  function GroupDigits(ds: string): (r: string)
    requires ds != []
  {
    Join(Groups(ds), ",")
  }

  /**
   * `formatNumber(num)`: "0" for a falsy (missing or zero) number, otherwise
   * its decimal digits grouped by three, after the sign.
   */
  function FormatNumber(num: Option<int>): (r: string)
    ensures num.None? || num.value == 0 ==> r == "0"
    ensures |r| >= 1
    ensures num.Some? && num.value < 0 ==> r[0] == '-'
  {
    if num.None? || num.value == 0 then "0"
    else if num.value < 0 then "-" + GroupDigits(NatToString(-num.value))
    else GroupDigits(NatToString(num.value))
  }

  /** Taking out the commas of a string without any gives it back. */
  function RemoveCommas(s: string): (r: string) {
    if s == [] then [] else (if s[0] == ',' then [] else [s[0]]) + RemoveCommas(s[1..])
  }

  lemma {:induction false} RemoveCommasAppend(a: string, b: string)
    ensures RemoveCommas(a + b) == RemoveCommas(a) + RemoveCommas(b)
    decreases |a|
  {
    if a != [] {
      assert (a + b)[0] == a[0];
      assert (a + b)[1..] == a[1..] + b;
      RemoveCommasAppend(a[1..], b);
    } else {
      assert a + b == b;
    }
  }

  lemma {:induction false} RemoveCommasOfDigits(ds: string)
    requires forall i :: 0 <= i < |ds| ==> IsDigit(ds[i])
    ensures RemoveCommas(ds) == ds
  {
    if ds != [] {
      RemoveCommasOfDigits(ds[1..]);
    }
  }

  /** Joining digit groups with commas and taking the commas out again gives the digits. */
  lemma {:induction false} RemoveCommasJoin(g: seq<string>)
    requires forall i :: 0 <= i < |g| ==> forall j :: 0 <= j < |g[i]| ==> IsDigit(g[i][j])
    ensures RemoveCommas(Join(g, ",")) == Concat(g)
  {
    if |g| == 1 {
      RemoveCommasOfDigits(g[0]);
      assert Concat(g) == g[0] + Concat([]);
    } else if |g| > 1 {
      RemoveCommasJoin(g[1..]);
      RemoveCommasOfDigits(g[0]);
      RemoveCommasAppend(g[0] + ",", Join(g[1..], ","));
      RemoveCommasAppend(g[0], ",");
    }
  }

  /** A string of digits holds no comma. */
  lemma DigitsNoComma(ds: string)
    requires forall i :: 0 <= i < |ds| ==> IsDigit(ds[i])
    ensures !Contains(ds, ",")
  {
    forall j ensures !OccursAt(ds, ",", j) {
      if 0 <= j && j + 1 <= |ds| {
        assert ds[j..j + 1][0] == ds[j];
      }
    }
  }

  /**
   * A positive number is written with its digits split by commas into
   * groups: a leading group of one to three digits, then groups of three;
   * taking the commas out gives its plain decimal digits.
   */
  lemma FormatNumberGroups(n: int)
    requires n > 0
    ensures Split(FormatNumber(Some(n)), ",") == Groups(NatToString(n))
    ensures RemoveCommas(FormatNumber(Some(n))) == NatToString(n)
  {
    var ds := NatToString(n);
    var g := Groups(ds);
    GroupsOfDigits(ds);
    forall i | 0 <= i < |g| ensures !Contains(g[i], ",") {
      DigitsNoComma(g[i]);
    }
    SplitJoin(g, ",");
    RemoveCommasJoin(g);
    GroupsConcat(ds);
  }

  /** A negative number is its absolute value written the same way, after a minus sign. */
  lemma FormatNumberNegative(n: int)
    requires n < 0
    ensures FormatNumber(Some(n)) == "-" + FormatNumber(Some(-n))
  {
  }

  /** Illustration of the grouping lemmas above: three digits or fewer take no comma; a fourth starts a new group. */
  lemma FormatNumberExamples()
    ensures FormatNumber(Some(999)) == "999"
    ensures FormatNumber(Some(1234)) == "1,234"
  {
    assert NatToString(999) == "999";
    var ds := "1234";
    assert NatToString(1234) == ds by {
      assert NatToString(12) == "12";
      assert NatToString(123) == "123";
    }
    assert ds[..1] == "1" && ds[1..] == "234";
    assert Groups(ds) == ["1", "234"];
  }
}
