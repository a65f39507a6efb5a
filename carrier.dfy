/** The carrier base class: the two text coercions (`us_date`,
    `to_decimal`), locator resolution, positional assembly of one policy
    record (`fetch_policy`), the policy generator (`fetch_policies`), and the
    configuration and mutable state every carrier object carries. */
module Carrier {
  import opened PyBuiltins
  import opened Decimals
  import opened Calendar
  import opened CustomTypes
  import opened Values

  // ---------------------------------------------------------------- us_date

  /** `if date_in.startswith(':'): date_in = date_in[1:]`. */
  function StripColon(s: string): string
  {
    if |s| > 0 && s[0] == ':' then s[1..] else s
  }

  /** The order `for separator in frozenset(['-', '/'])` visits. */
  function SeparatorOrder(dashFirst: bool): seq<char>
  {
    if dashFirst then ['-', '/'] else ['/', '-']
  }

  /** `[int(num) for num in parts]`: the first part that is not an integer
      raises ValueError. */
  function ParseInts(parts: seq<string>): (r: Result<seq<int>>)
    ensures r.Ok? ==> |r.value| == |parts|
    ensures r.Err? ==> r.error == ValueError
  {
    if parts == [] then Ok([])
    else
      var head :- ParseInt(parts[0]);
      var tail :- ParseInts(parts[1..]);
      Ok([head] + tail)
  }

  /** `date(parts[2], parts[0], parts[1])` on the converted parts: year
      third, month first, day second. */
  function DateFromParts(parts: seq<string>): (r: Result<CalendarDate>)
    ensures r.Err? ==> r.error in {ValueError, IndexError, OverflowError}
  {
    var nums :- ParseInts(parts);
    if |nums| < 3 then Err(IndexError) else MakeDate(nums[2], nums[0], nums[1])
  }

  /** The separator loop: the first separator that occurs decides. */
  function TryDateSeparators(s: string, separators: seq<char>): (r: Result<CalendarDate>)
    ensures r.Err? ==> r.error in {ValueError, IndexError, OverflowError}
  {
    if separators == [] then Err(ValueError)
    else if separators[0] in s then DateFromParts(Split(s, separators[0]))
    else TryDateSeparators(s, separators[1..])
  }

  /** `Carrier.us_date(date_in)`: a valid calendar date, or one of the
      three exceptions `int()`, the subscripts and `date()` raise. */
  function UsDate(dateIn: string, dashFirst: bool): (r: Result<CalendarDate>)
    ensures r.Err? ==> r.error in {ValueError, IndexError, OverflowError}
  {
    TryDateSeparators(StripColon(dateIn), SeparatorOrder(dashFirst))
  }

  // ---------------------------------------------------------------- to_decimal

  /** `if number.endswith('%'): number = number[:-1]`. */
  function StripPercent(s: string): string
  {
    if |s| > 0 && s[|s| - 1] == '%' then s[..|s| - 1] else s
  }

  /** `Carrier.to_decimal(number)`: the token after the first single space
      of the text without its trailing percent sign, read as a decimal. */
  function ToDecimal(number: string): (r: Result<Decimal>)
    ensures r.Ok? ==> r.value.exponent <= 0
    ensures r.Err? ==> r.error == IndexError || r.error == InvalidOperation
  {
    var tokens := Split(StripPercent(number), ' ');
    if |tokens| < 2 then Err(IndexError) else ParseDecimal(tokens[1])
  }

  // ---------------------------------------------------------------- coercions

  /** `Status(v)`: lookup by value. The values are the `auto()` integers,
      and a member passed in is returned as it is. */
  function StatusByValue(v: Value): Result<Status>
  {
    match v
    case Int(i) => if 1 <= i <= |Statuses| then Ok(Statuses[i - 1]) else Err(ValueError)
    case Enum(s) => Ok(s)
    case _ => Err(ValueError)
  }

  /** A type-table entry applied to a located item. None of `int`,
      `Decimal` and `us_date` accepts an element: the first two raise
      TypeError, `us_date` fails on `startswith` with AttributeError. */
  function Coerce(c: Coercion, item: Item, dashFirst: bool): Result<Value>
  {
    match c
    case StrCall => Ok(if item.TextItem? then Str(item.text) else ElementStr(item.node))
    case IntCall =>
      if item.NodeItem? then Err(TypeError)
      else var n :- ParseInt(item.text); Ok(Int(n))
    case DecimalCall =>
      if item.NodeItem? then Err(TypeError)
      else var d :- ParseDecimal(item.text); Ok(Dec(d))
    case StatusCall =>
      var s :- StatusByValue(ItemValue(item)); Ok(Enum(s))
    case UsDateCall =>
      if item.NodeItem? then Err(AttributeError)
      else var d :- UsDate(item.text, dashFirst); Ok(DateV(d))
  }

  // ---------------------------------------------------------------- fetch_policy

  /** The per-class tables of a policy type. */
  datatype PolicySchema = PolicySchema(
    decl: Dataclass,
    policyXpath: map<PolicyField, IndexedXpath>,
    usedFields: seq<PolicyField>,
    dataTypes: map<PolicyField, Coercion>)

  /** `if not isinstance(data, str): data = data[xpath.place]`: a string
      is kept whatever the place, a list is indexed (negative places count
      from the end), and any other result cannot be subscripted. */
  function Locate(x: XResult, place: int): Result<Item>
  {
    match x
    case XStr(s) => Ok(TextItem(s))
    case XList(items) => Subscript(items, place)
    case XOther => Err(TypeError)
  }

  /** One pass of the `fetch_policy` loop body: its locator, the query on
      the policy element, the located item and its coercion. */
  function FieldValue(env: Env, policy: Node, schema: PolicySchema, f: PolicyField): Result<Value>
  {
    if f !in schema.policyXpath then Err(KeyError)
    else
      var loc := schema.policyXpath[f];
      var item :- Locate(env.xpath(policy, loc.xpath), loc.place);
      if f !in schema.dataTypes then Err(KeyError)
      else Coerce(schema.dataTypes[f], item, env.dashFirst)
  }

  /** The `attributes` list after the loop has run over `fields`. */
  function CoercedFields(env: Env, policy: Node, schema: PolicySchema, fields: seq<PolicyField>): Result<seq<Value>>
  {
    if fields == [] then Ok([])
    else
      var n := |fields| - 1;
      var init :- CoercedFields(env, policy, schema, fields[..n]);
      var last :- FieldValue(env, policy, schema, fields[n]);
      Ok(init + [last])
  }

  /** `fetch_policy(policy, policy_type)` as a value. */
  function BuildPolicy(env: Env, policy: Node, schema: PolicySchema): (r: Result<Value>)
    ensures r.Ok? ==> r.value.Object? && r.value.cls == schema.decl.kind
    ensures r.Ok? ==> CoercedFields(env, policy, schema, schema.usedFields).Ok?
  {
    var args :- CoercedFields(env, policy, schema, schema.usedFields);
    Construct(schema.decl, args)
  }

  /** `Carrier.fetch_policy`: one coerced attribute per used field, in
      order, passed positionally to the policy type. */
  method FetchPolicy(env: Env, policy: Node, schema: PolicySchema) returns (r: Result<Value>)
    ensures r == BuildPolicy(env, policy, schema)
  {
    var attributes: seq<Value> := [];
    var i := 0;
    var used := schema.usedFields;
    while i < |used|
      invariant 0 <= i <= |used|
      invariant CoercedFields(env, policy, schema, used[..i]) == Ok(attributes)
    {
      var field := used[i];
      assert used[..i + 1][..i] == used[..i];
      if field !in schema.policyXpath {
        PrefixFailure(env, policy, schema, used, i + 1);
        return Err(KeyError);
      }
      var xpath := schema.policyXpath[field];
      var data := Locate(env.xpath(policy, xpath.xpath), xpath.place);
      if data.Err? {
        PrefixFailure(env, policy, schema, used, i + 1);
        return Err(data.error);
      }
      if field !in schema.dataTypes {
        PrefixFailure(env, policy, schema, used, i + 1);
        return Err(KeyError);
      }
      var value := Coerce(schema.dataTypes[field], data.value, env.dashFirst);
      if value.Err? {
        PrefixFailure(env, policy, schema, used, i + 1);
        return Err(value.error);
      }
      attributes := attributes + [value.value];
      i := i + 1;
    }
    assert used[..|used|] == used;
    r := Construct(schema.decl, attributes);
  }

  /** A failure among the first k fields is the failure of the whole
      loop. */
  lemma {:induction false} PrefixFailure(env: Env, policy: Node, schema: PolicySchema, fields: seq<PolicyField>, k: nat)
    requires k <= |fields| && CoercedFields(env, policy, schema, fields[..k]).Err?
    ensures CoercedFields(env, policy, schema, fields) == CoercedFields(env, policy, schema, fields[..k])
    decreases |fields| - k
  {
    if k < |fields| {
      var k' := k + 1;
      assert fields[..k'][..k] == fields[..k];
      PrefixFailure(env, policy, schema, fields, k');
    } else {
      assert fields[..k] == fields;
    }
  }

  /** The loop succeeds exactly when every field does; then it holds one
      value per field, in field order; otherwise it fails with the error of
      the first field that fails. */
  lemma {:induction false} CoercedFieldsSpec(env: Env, policy: Node, schema: PolicySchema, fields: seq<PolicyField>)
    ensures CoercedFields(env, policy, schema, fields).Ok? <==>
      forall i :: 0 <= i < |fields| ==> FieldValue(env, policy, schema, fields[i]).Ok?
    ensures CoercedFields(env, policy, schema, fields).Ok? ==>
      var vs := CoercedFields(env, policy, schema, fields).value;
      |vs| == |fields| &&
      forall i :: 0 <= i < |fields| ==> vs[i] == FieldValue(env, policy, schema, fields[i]).value
    ensures CoercedFields(env, policy, schema, fields).Err? ==>
      exists i :: 0 <= i < |fields|
        && (forall j :: 0 <= j < i ==> FieldValue(env, policy, schema, fields[j]).Ok?)
        && FieldValue(env, policy, schema, fields[i]) == Err(CoercedFields(env, policy, schema, fields).error)
  {
    CoercedFieldsCollect(env, policy, schema, fields);
    CollectSpec(FieldResults(env, policy, schema, fields));
  }

  /** The per-field results of the loop in `fetch_policy`. */
  function FieldResults(env: Env, policy: Node, schema: PolicySchema, fields: seq<PolicyField>): (rs: seq<Result<Value>>)
    ensures |rs| == |fields| && forall i :: 0 <= i < |fields| ==> rs[i] == FieldValue(env, policy, schema, fields[i])
  {
    seq(|fields|, i requires 0 <= i < |fields| => FieldValue(env, policy, schema, fields[i]))
  }

  lemma {:induction false} CoercedFieldsCollect(env: Env, policy: Node, schema: PolicySchema, fields: seq<PolicyField>)
    ensures CoercedFields(env, policy, schema, fields) == Collect(FieldResults(env, policy, schema, fields))
  {
    var rs := FieldResults(env, policy, schema, fields);
    if fields != [] {
      var n := |fields| - 1;
      CoercedFieldsCollect(env, policy, schema, fields[..n]);
      assert FieldResults(env, policy, schema, fields[..n]) == rs[..n];
      assert rs[n] == FieldValue(env, policy, schema, fields[n]);
    }
  }

  // ---------------------------------------------------------------- fetch_policies

  /** `for x in result`: a list yields its members, a string its
      characters, anything else is not iterable. */
  function Iterate(x: XResult): Result<seq<Item>>
  {
    match x
    case XList(items) => Ok(items)
    case XStr(s) => Ok(seq(|s|, i requires 0 <= i < |s| => TextItem([s[i]])))
    case XOther => Err(TypeError)
  }

  /** `Carrier.fetch_policies(tree, xpath)`: every match of the query, in
      match order. */
  method FetchPolicies(env: Env, tree: Node, xpath: string) returns (r: Result<seq<Item>>)
    ensures r == Iterate(env.xpath(tree, xpath))
    ensures env.xpath(tree, xpath).XList? ==> r == Ok(env.xpath(tree, xpath).items)
    ensures env.xpath(tree, xpath).XStr? ==>
      var s := env.xpath(tree, xpath).s;
      r.Ok? && |r.value| == |s| && forall i :: 0 <= i < |s| ==> r.value[i] == TextItem([s[i]])
    ensures env.xpath(tree, xpath).XOther? ==> r == Err(TypeError)
  {
    var result := env.xpath(tree, xpath);
    if result.XOther? {
      return Err(TypeError);
    }
    var matches := Iterate(result).value;
    var yielded: seq<Item> := [];
    var i := 0;
    while i < |matches|
      invariant 0 <= i <= |matches|
      invariant yielded == matches[..i]
    {
      yielded := yielded + [matches[i]];
      i := i + 1;
    }
    assert matches[..|matches|] == matches;
    r := Ok(yielded);
  }

  // ---------------------------------------------------------------- carriers

  /** The class-level configuration of a carrier. An attribute the class
      never defines is `None`; reading it raises AttributeError. */
  datatype CarrierConfig = CarrierConfig(
    name: string,
    systemName: string,
    uri: string,
    policies: Option<string>,
    policyType: Option<PolicySchema>,
    agentsXpath: map<FieldId, IndexedXpath>,
    customerXpath: map<FieldId, IndexedXpath>)

  /** `Carrier.name` and `Carrier.system_name`, which no carrier overrides. */
  const GenericName := "Generic carrier"
  const GenericSystemName := "GENERIC_CARRIER"

  /** A carrier instance: its class configuration, the page tree it is
      working on (`None` until the root is fetched), and the
      `policy_elements` instance attribute where `__init__` defines one. */
  class CarrierObject {
    const config: CarrierConfig
    var tree: Option<Node>
    var policyElements: Option<map<int, Node>>

    constructor (config: CarrierConfig, policyElements: Option<map<int, Node>>)
      ensures this.config == config && tree == None && this.policyElements == policyElements
    {
      this.config := config;
      tree := None;
      this.policyElements := policyElements;
    }
  }

  // ---------------------------------------------------------------- lemmas

  /** A leading colon is dropped and nothing else is. */
  lemma UsDateStripsOneColon(s: string, dashFirst: bool)
    ensures UsDate([':'] + s, dashFirst) == TryDateSeparators(s, SeparatorOrder(dashFirst))
    ensures (s == [] || s[0] != ':') ==> UsDate(s, dashFirst) == TryDateSeparators(s, SeparatorOrder(dashFirst))
  {
    assert ([':'] + s)[1..] == s;
  }

  /** The separator loop unrolled: the first separator of the frozenset's
      order that occurs is used, and with neither the date is refused. */
  lemma UsDateCases(s: string, dashFirst: bool)
    ensures var t := StripColon(s);
      var first, second := if dashFirst then '-' else '/', if dashFirst then '/' else '-';
      UsDate(s, dashFirst) ==
        if first in t then DateFromParts(Split(t, first))
        else if second in t then DateFromParts(Split(t, second))
        else Err(ValueError)
  {
    var t := StripColon(s);
    var order := SeparatorOrder(dashFirst);
    assert order[1..] == [order[1]];
    assert [order[1]][1..] == [];
    assert TryDateSeparators(t, order) ==
      if order[0] in t then DateFromParts(Split(t, order[0])) else TryDateSeparators(t, [order[1]]);
    assert TryDateSeparators(t, [order[1]]) ==
      if order[1] in t then DateFromParts(Split(t, order[1])) else TryDateSeparators(t, []);
  }

  /** Without `-` or `/` there is nothing to split on: ValueError. */
  lemma UsDateNoSeparator(s: string, dashFirst: bool)
    requires '-' !in StripColon(s) && '/' !in StripColon(s)
    ensures UsDate(s, dashFirst) == Err(ValueError)
  {
    UsDateCases(s, dashFirst);
  }

  /** When both separators occur, the one chosen is the first the
      frozenset yields. */
  lemma UsDateBothSeparators(s: string, dashFirst: bool)
    requires '-' in StripColon(s) && '/' in StripColon(s)
    ensures UsDate(s, dashFirst) == DateFromParts(Split(StripColon(s), if dashFirst then '-' else '/'))
  {
    UsDateCases(s, dashFirst);
  }

  /** When only one separator occurs the frozenset's order does not
      matter. */
  lemma UsDateOrderIrrelevant(s: string)
    requires !('-' in StripColon(s) && '/' in StripColon(s))
    ensures UsDate(s, true) == UsDate(s, false)
  {
    UsDateCases(s, true);
    UsDateCases(s, false);
  }

  /** The pieces of `a + [sep] + b + [sep] + c` when none of them holds the
      separator. */
  lemma SplitThree(a: string, b: string, c: string, sep: char)
    requires sep !in a && sep !in b && sep !in c
    ensures Split(a + [sep] + b + [sep] + c, sep) == [a, b, c]
  {
    assert a + [sep] + b + [sep] + c == a + [sep] + (b + [sep] + c);
    SplitAtFirst(a, sep, b + [sep] + c);
    SplitAtFirst(b, sep, c);
    SplitWithoutSeparator(c, sep);
  }

  /** Converting one more part appends its value, or fails. */
  lemma {:induction false} ParseIntsSnoc(parts: seq<string>, extra: string)
    ensures ParseInts(parts + [extra]) ==
      if ParseInts(parts).Err? || ParseInt(extra).Err? then Err(ValueError)
      else Ok(ParseInts(parts).value + [ParseInt(extra).value])
  {
    if parts == [] {
      assert parts + [extra] == [extra] && [extra][0] == extra && [extra][1..] == [];
      assert ParseInts([extra][1..]) == Ok([]);
      assert ParseInts([extra]) == if ParseInt(extra).Err? then Err(ValueError) else Ok([ParseInt(extra).value] + []);
      assert ParseInts(parts) == Ok([]);
      if ParseInt(extra).Ok? {
        assert ParseInts(parts).value + [ParseInt(extra).value] == [ParseInt(extra).value] + [];
      }
    } else {
      var whole := parts + [extra];
      assert whole[0] == parts[0];
      assert whole[1..] == parts[1..] + [extra];
      ParseIntsSnoc(parts[1..], extra);
      var h, t := ParseInt(parts[0]), ParseInts(parts[1..]);
      assert ParseInts(parts) == if h.Err? then Err(h.error) else if t.Err? then Err(t.error) else Ok([h.value] + t.value);
      assert ParseInts(whole) == if h.Err? then Err(h.error) else if ParseInts(whole[1..]).Err? then Err(ValueError)
        else Ok([h.value] + ParseInts(whole[1..]).value);
      if h.Ok? && t.Ok? && ParseInt(extra).Ok? {
        assert [h.value] + (t.value + [ParseInt(extra).value]) == ([h.value] + t.value) + [ParseInt(extra).value];
      }
    }
  }

  /** Three digit strings convert to their values. */
  lemma ParseThree(a: string, b: string, c: string)
    requires a != [] && b != [] && c != [] && AllDigits(a) && AllDigits(b) && AllDigits(c)
    ensures ParseInts([a, b, c]) == Ok([DigitsValue(a), DigitsValue(b), DigitsValue(c)])
  {
    ParseIntDigits(a);
    ParseIntDigits(b);
    ParseIntDigits(c);
    var x, y, z := DigitsValue(a), DigitsValue(b), DigitsValue(c);
    ParseIntsSnoc([], a);
    assert [] + [a] == [a] && [] + [x] == [x];
    assert ParseInts([a]) == Ok([x]);
    ParseIntsSnoc([a], b);
    assert [a] + [b] == [a, b] && [x] + [y] == [x, y];
    assert ParseInts([a, b]) == Ok([x, y]);
    ParseIntsSnoc([a, b], c);
    assert [a, b] + [c] == [a, b, c] && [x, y] + [z] == [x, y, z];
  }

  /** `month SEP day SEP year` with digit strings is read month first: the
      date is `date(year, month, day)`, whichever separator is used and
      whatever the frozenset's order, after at most one leading colon. */
  lemma UsDateMonthFirst(month: string, day: string, year: string, sep: char, colon: bool, dashFirst: bool)
    requires sep == '-' || sep == '/'
    requires month != [] && day != [] && year != []
    requires AllDigits(month) && AllDigits(day) && AllDigits(year)
    ensures UsDate((if colon then ":" else "") + month + [sep] + day + [sep] + year, dashFirst)
         == MakeDate(DigitsValue(year), DigitsValue(month), DigitsValue(day))
  {
    var body := month + [sep] + day + [sep] + year;
    var s := (if colon then ":" else "") + body;
    assert s == (if colon then ":" else "") + month + [sep] + day + [sep] + year;
    DigitFieldsSeparators(month, day, year, sep);
    OptionalColon(colon, body);
    UsDateSingleSeparator(s, sep, dashFirst);
    SplitThree(month, day, year, sep);
    ParseThree(month, day, year);
  }

  /** Digit strings joined by one separator hold only that separator, and
      start with a digit. */
  lemma DigitFieldsSeparators(month: string, day: string, year: string, sep: char)
    requires sep == '-' || sep == '/'
    requires month != [] && AllDigits(month) && AllDigits(day) && AllDigits(year)
    ensures var body := month + [sep] + day + [sep] + year;
      && sep in body && (if sep == '-' then '/' else '-') !in body
      && sep !in month && sep !in day && sep !in year
      && body[0] != ':'
  {
    var body := month + [sep] + day + [sep] + year;
    assert body[|month|] == sep;
    assert body[0] == month[0];
    forall i | 0 <= i < |body| ensures body[i] == sep || IsDigit(body[i]) {
      if i < |month| {
        assert body[i] == month[i];
      } else if i == |month| {
      } else if i < |month| + 1 + |day| {
        assert body[i] == day[i - |month| - 1];
      } else if i == |month| + 1 + |day| {
      } else {
        assert body[i] == year[i - |month| - 2 - |day|];
      }
    }
    NoCharInDigits(sep, month);
    NoCharInDigits(sep, day);
    NoCharInDigits(sep, year);
  }

  lemma NoCharInDigits(c: char, s: string)
    requires !IsDigit(c) && AllDigits(s)
    ensures c !in s
  {
  }

  lemma OptionalColon(colon: bool, body: string)
    requires body == [] || body[0] != ':'
    ensures StripColon((if colon then ":" else "") + body) == body
  {
    var s := (if colon then ":" else "") + body;
    if colon {
      assert s[0] == ':' && s[1..] == body;
    } else {
      assert s == body;
    }
  }

  /** With exactly one of the separators present, `us_date` splits on it. */
  lemma UsDateSingleSeparator(s: string, sep: char, dashFirst: bool)
    requires sep == '-' || sep == '/'
    requires sep in StripColon(s) && (if sep == '-' then '/' else '-') !in StripColon(s)
    ensures UsDate(s, dashFirst) == DateFromParts(Split(StripColon(s), sep))
  {
    UsDateCases(s, dashFirst);
  }

  /** A fourth part is converted with `int()` as well: when it is an
      integer it is ignored, otherwise the whole date fails. */
  lemma UsDateExtraPart(parts: seq<string>, extra: string)
    requires |parts| == 3
    ensures ParseInt(extra).Ok? ==> DateFromParts(parts + [extra]) == DateFromParts(parts)
    ensures ParseInt(extra).Err? ==> DateFromParts(parts + [extra]) == Err(ValueError)
  {
    ParseIntsSnoc(parts, extra);
  }

  /** Fewer than three integer parts: `parts[2]` raises IndexError. */
  lemma UsDateTooFewParts(parts: seq<string>)
    requires |parts| < 3 && ParseInts(parts).Ok?
    ensures DateFromParts(parts) == Err(IndexError)
  {
  }

  lemma SmallNumbers()
    ensures DigitsValue("12") == 12 && DigitsValue("31") == 31 && DigitsValue("2000") == 2000
  {
    assert "12"[..1] == "1" && "31"[..1] == "3" && "1"[..0] == "" && "3"[..0] == "";
    assert "2000"[..3] == "200" && "200"[..2] == "20" && "20"[..1] == "2" && "2"[..0] == "";
  }

  /** The docstring's day-first reading is not what the code does: a date
      written month first is read as such... */
  lemma UsDateMonthFirstExample(dashFirst: bool)
    ensures UsDate("12/31/2000", dashFirst) == Ok(Date(2000, 12, 31))
  {
    SmallNumbers();
    Dec31Valid();
    assert "" + "12" + ['/'] + "31" + ['/'] + "2000" == "12/31/2000";
    UsDateMonthFirst("12", "31", "2000", '/', false, dashFirst);
  }

  lemma Dec31Valid()
    ensures MakeDate(2000, 12, 31) == Ok(Date(2000, 12, 31))
    ensures MakeDate(2000, 31, 12) == Err(ValueError)
  {
    assert FitsCInt(2000) && FitsCInt(31) && FitsCInt(12);
    assert IsValid(Date(2000, 12, 31));
  }

  /** ...and a date written day first with a day past twelve is refused. */
  lemma UsDateDayFirstRefused(dashFirst: bool)
    ensures UsDate("31/12/2000", dashFirst) == Err(ValueError)
  {
    SmallNumbers();
    Dec31Valid();
    assert "" + "31" + ['/'] + "12" + ['/'] + "2000" == "31/12/2000";
    UsDateMonthFirst("31", "12", "2000", '/', false, dashFirst);
  }

  /** `to_decimal` reads the token after the first space, after dropping one
      trailing percent sign. */
  lemma ToDecimalSecondToken(caption: string, rest: string)
    requires ' ' !in caption && (rest == [] || rest[|rest| - 1] != '%')
    ensures ToDecimal(caption + " " + rest) == ParseDecimal(Split(rest, ' ')[0])
    ensures ToDecimal(caption + " " + rest + "%") == ParseDecimal(Split(rest, ' ')[0])
  {
    var s := caption + [' '] + rest;
    assert caption + " " + rest == s;
    assert s + "%" == caption + " " + rest + "%";
    PercentFree(caption, rest);
    SplitAtFirst(caption, ' ', rest);
    ToDecimalOf(s, ([caption] + Split(rest, ' '))[1]);
    ToDecimalOf(s + "%", ([caption] + Split(rest, ' '))[1]);
  }

  /** The text `caption rest` has no trailing percent sign of its own. */
  lemma PercentFree(caption: string, rest: string)
    requires rest == [] || rest[|rest| - 1] != '%'
    ensures var s := caption + [' '] + rest;
      StripPercent(s) == s && StripPercent(s + "%") == s
  {
    var s := caption + [' '] + rest;
    if rest == [] { assert s[|s| - 1] == ' '; } else { assert s[|s| - 1] == rest[|rest| - 1]; }
    assert (s + "%")[|s|] == '%' && (s + "%")[..|s|] == s;
  }

  lemma ToDecimalOf(number: string, token: string)
    requires |Split(StripPercent(number), ' ')| >= 2 && Split(StripPercent(number), ' ')[1] == token
    ensures ToDecimal(number) == ParseDecimal(token)
  {
  }

  /** Without a space there is no second token: IndexError. */
  lemma ToDecimalNoSpace(number: string)
    requires ' ' !in StripPercent(number)
    ensures ToDecimal(number) == Err(IndexError)
  {
    SplitWithoutSeparator(StripPercent(number), ' ');
  }

  /** `to_decimal` is exact: no digit of the amount is lost or rounded. */
  lemma ToDecimalExact(caption: string, d: Decimal)
    requires ' ' !in caption && d.exponent <= 0
    ensures ToDecimal(caption + " " + Render(d)) == Ok(d)
    ensures ToDecimal(caption + " " + Render(d) + "%") == Ok(d)
  {
    RenderAlphabet(d);
    var t := Render(d);
    assert ' ' !in t;
    SplitWithoutSeparator(t, ' ');
    ToDecimalSecondToken(caption, t);
    RenderParse(d);
  }

  /** A string result is used verbatim whatever the place; a list result
      gives the member at that place, and an out-of-range place raises
      IndexError. */
  lemma LocateSpec(x: XResult, place: int)
    ensures x.XStr? ==> Locate(x, place) == Ok(TextItem(x.s))
    ensures x.XList? && 0 <= place < |x.items| ==> Locate(x, place) == Ok(x.items[place])
    ensures x.XList? && -|x.items| <= place < 0 ==> Locate(x, place) == Ok(x.items[|x.items| + place])
    ensures x.XList? && (place >= |x.items| || place < -|x.items|) ==> Locate(x, place) == Err(IndexError)
    ensures x.XOther? ==> Locate(x, place) == Err(TypeError)
  {
  }

  /** `Status(text)` never succeeds: the members' values are integers, and
      no text or element equals one. */
  lemma StatusNeverFromPage(item: Item, dashFirst: bool)
    ensures Coerce(StatusCall, item, dashFirst) == Err(ValueError)
  {
  }
}
