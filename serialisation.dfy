/** The `to_dict` serialisers: `Policy.to_dict` (shared by every policy
    type), `Agent.to_dict` and `Customer.to_dict`. Each copies the object's
    attribute map, deletes the keys its `_serialize` list does not name, and
    then rewrites a few entries. The functions state what each returns; the
    methods do it the way the source does, with loops over the keys. */
module Serialisation {
  import opened PyBuiltins
  import opened Decimals
  import opened Calendar
  import opened CustomTypes
  import opened Values

  /** `Policy._serialize`, which lists `effective_date` twice. */
  const PolicySerialize: seq<string> :=
    ["id", "premium", "status", "effective_date", "effective_date",
     "termination_date", "last_payment_date", "commission_rate", "number_of_insured"]

  /** The keys `Policy.to_dict` rewrites with `isocalendar()`, in order. */
  const DateKeys: seq<string> := ["effective_date", "termination_date", "last_payment_date"]

  /** The keys `Policy.to_dict` rewrites with `float()` when present. */
  const DecimalKeys: seq<string> := ["commission_rate", "premium"]

  /** `v.name`: an enumeration member's identifier, or a dataclass
      instance's `name` attribute. */
  function AttrName(v: Value): Result<Value>
  {
    match v
    case Enum(s) => Ok(Str(StatusName(s)))
    case Object(_, attrs) => if "name" in attrs then Ok(attrs["name"]) else Err(AttributeError)
    case _ => Err(AttributeError)
  }

  /** `v.isocalendar()`: only a date has the method. */
  function IsoCalendarOf(v: Value): Result<Value>
  {
    if v.DateV? then Ok(IsoWeekDate(IsoCalendar(v.date))) else Err(AttributeError)
  }

  /** 2^1024 - 2^970: the least integer magnitude that rounds past the
      largest IEEE 754 double, so `float()` of it raises OverflowError. */
  const FloatIntLimit: int := 0xFF_FFFF_FFFF_FFFC00000000000000000000000000000000000000000000000000000000000000000000000000000000000000000000000000000000000000000000000000000000000000000000000000000000000000000000000000000000000000000000000000000000000000000000000000000000000000000000000000

  /** `float(v)` on the values a policy can hold. An int too large for a
      double raises OverflowError; a decimal string or `Decimal` that large
      becomes infinity instead, which `FloatOf` stands for. */
  function PyFloat(v: Value): Result<Value>
  {
    match v
    case Dec(d) => Ok(FloatOf(d))
    case Int(i) =>
      if i >= FloatIntLimit || -i >= FloatIntLimit then Err(OverflowError)
      else Ok(FloatOf(Decimal(i < 0, if i < 0 then -i else i, 0)))
    case Str(s) => (match ParseDecimal(s) case Ok(d) => Ok(FloatOf(d)) case Err(_) => Err(ValueError))
    case ElementStr(_) => Err(ValueError)
    case FloatOf(d) => Ok(FloatOf(d))
    case _ => Err(TypeError)
  }

  /** The date loop: each key in turn must be present (KeyError) and hold a
      date (AttributeError), and is replaced by its ISO week date. */
  function RewriteDates(m: map<string, Value>, keys: seq<string>): (r: Result<map<string, Value>>)
    ensures r.Err? ==> r.error == KeyError || r.error == AttributeError
  {
    if keys == [] then Ok(m)
    else if keys[0] !in m then Err(KeyError)
    else
      match IsoCalendarOf(m[keys[0]])
      case Err(e) => Err(e)
      case Ok(iso) => RewriteDates(m[keys[0] := iso], keys[1..])
  }

  /** The decimal loop: a missing key is skipped (the KeyError is caught),
      a present one is replaced by its `float()`. */
  function RewriteFloats(m: map<string, Value>, keys: seq<string>): (r: Result<map<string, Value>>)
    ensures r.Err? ==> r.error == ValueError || r.error == TypeError || r.error == OverflowError
  {
    if keys == [] then Ok(m)
    else if keys[0] !in m then RewriteFloats(m, keys[1..])
    else
      match PyFloat(m[keys[0]])
      case Err(e) => Err(e)
      case Ok(f) => RewriteFloats(m[keys[0] := f], keys[1..])
  }

  /** `Policy.to_dict()` on a policy with attribute map `attrs`: the
      exceptions it can raise are the missing `status` key or date key,
      a value without `name` or `isocalendar`, and those of `float()`. */
  function PolicyDict(attrs: map<string, Value>): (r: Result<map<string, Value>>)
    ensures "status" !in attrs ==> r == Err(KeyError)
    ensures r.Err? ==> r.error in {KeyError, AttributeError, ValueError, TypeError, OverflowError}
  {
    var copy := Restrict(attrs, PolicySerialize);
    if "status" !in copy then Err(KeyError)
    else
      var name :- AttrName(copy["status"]);
      var dated :- RewriteDates(copy["status" := name], DateKeys);
      RewriteFloats(dated, DecimalKeys)
  }

  /** `Agent.to_dict()`. */
  function AgentDict(attrs: map<string, Value>): map<string, Value>
  {
    Restrict(attrs, AgentSerialize)
  }

  /** `v.to_dict()` for whatever `v` is: the serialiser of its class, or
      AttributeError for a value that has none (`None` among them). */
  ghost function ToDict(v: Value): Result<Value>
    decreases v, 2
  {
    match v
    case Object(AgentClass, attrs) => Ok(Dict(AgentDict(attrs)))
    case Object(PolicyClass(_), attrs) =>
      (match PolicyDict(attrs) case Ok(d) => Ok(Dict(d)) case Err(e) => Err(e))
    case Object(CustomerClass, _) => CustomerDict(v)
    case _ => Err(AttributeError)
  }

  /** `Customer.to_dict()`: the `agent` entry becomes the agent's own
      dictionary, and `policies` must be a dictionary whose values are each
      replaced by their `to_dict()`. */
  ghost function CustomerDict(self: Value): Result<Value>
    requires self.Object?
    decreases self, 1
  {
    var copy := Restrict(self.attrs, CustomerSerialize);
    if "agent" !in copy then Err(KeyError)
    else
      assert copy["agent"] == self.attrs["agent"];
      var agent :- ToDict(copy["agent"]);
      var copy := copy["agent" := agent];
      if "policies" !in copy then Err(KeyError)
      else
        match copy["policies"]
        case Dict(ps) =>
          var d :- PoliciesDict(self, ps);
          Ok(Dict(copy["policies" := Dict(d)]))
        case _ => Err(AttributeError)
  }

  /** `{key: policy.to_dict() for key, policy in ps.items()}`. When several
      policies fail, which error is raised depends on the dictionary's order,
      which the model does not keep. */
  ghost function PoliciesDict(self: Value, ps: map<string, Value>): Result<map<string, Value>>
    requires self.Object? && "policies" in self.attrs && self.attrs["policies"] == Dict(ps)
    decreases self, 0
  {
    if forall k :: k in ps ==> ToDict(ps[k]).Ok? then
      Ok(map k | k in ps :: ToDict(ps[k]).value)
    else
      var k :| k in ps && ToDict(ps[k]).Err?;
      Err(ToDict(ps[k]).error)
  }

  // ---------------------------------------------------------------- the serialisers as written

  /** `Agent.to_dict`: exactly the `_serialize` keys present on the object,
      with their values unchanged. */
  method AgentToDict(attrs: map<string, Value>) returns (r: map<string, Value>)
    ensures forall k :: k in r <==> k in attrs && k in AgentSerialize
    ensures forall k :: k in r ==> r[k] == attrs[k]
    ensures r == AgentDict(attrs)
  {
    r := KeepOnly(attrs, AgentSerialize);
  }

  /** `Policy.to_dict`. */
  method PolicyToDict(attrs: map<string, Value>) returns (r: Result<map<string, Value>>)
    ensures r == PolicyDict(attrs)
  {
    var copy := KeepOnly(attrs, PolicySerialize);
    if "status" !in copy {
      return Err(KeyError);
    }
    var name := AttrName(copy["status"]);
    if name.Err? {
      return Err(name.error);
    }
    copy := copy["status" := name.value];
    ghost var named := copy;
    var i := 0;
    while i < |DateKeys|
      invariant 0 <= i <= |DateKeys|
      invariant RewriteDates(copy, DateKeys[i..]) == RewriteDates(named, DateKeys)
    {
      var key := DateKeys[i];
      if key !in copy {
        return Err(KeyError);
      }
      var iso := IsoCalendarOf(copy[key]);
      if iso.Err? {
        return Err(iso.error);
      }
      copy := copy[key := iso.value];
      i := i + 1;
    }
    ghost var dated := copy;
    i := 0;
    while i < |DecimalKeys|
      invariant 0 <= i <= |DecimalKeys|
      invariant RewriteFloats(copy, DecimalKeys[i..]) == RewriteFloats(dated, DecimalKeys)
    {
      var key := DecimalKeys[i];
      if key in copy {
        var f := PyFloat(copy[key]);
        if f.Err? {
          return Err(f.error);
        }
        copy := copy[key := f.value];
      }
      i := i + 1;
    }
    return Ok(copy);
  }

  /** `v.to_dict()`, dispatched on the class of `v`. */
  method CallToDict(v: Value) returns (r: Result<Value>)
    ensures r.Ok? <==> ToDict(v).Ok?
    ensures r.Ok? ==> r == ToDict(v)
    decreases v, 2
  {
    match v
    case Object(AgentClass, attrs) =>
      var d := AgentToDict(attrs);
      r := Ok(Dict(d));
    case Object(PolicyClass(_), attrs) =>
      var d := PolicyToDict(attrs);
      r := if d.Ok? then Ok(Dict(d.value)) else Err(d.error);
    case Object(CustomerClass, _) =>
      r := CustomerToDict(v);
    case _ =>
      r := Err(AttributeError);
  }

  /** `Customer.to_dict`. */
  method CustomerToDict(self: Value) returns (r: Result<Value>)
    requires self.Object?
    ensures r.Ok? <==> CustomerDict(self).Ok?
    ensures r.Ok? ==> r == CustomerDict(self)
    decreases self, 1
  {
    var copy := KeepOnly(self.attrs, CustomerSerialize);
    if "agent" !in copy {
      return Err(KeyError);
    }
    var agent := CallToDict(copy["agent"]);
    if agent.Err? {
      return Err(agent.error);
    }
    copy := copy["agent" := agent.value];
    if "policies" !in copy {
      return Err(KeyError);
    }
    if !copy["policies"].Dict? {
      return Err(AttributeError);
    }
    var ps := copy["policies"].entries;
    var d := PoliciesToDict(self, ps);
    if d.Err? {
      return Err(d.error);
    }
    return Ok(Dict(copy["policies" := Dict(d.value)]));
  }

  /** The comprehension over `policies.items()`, as a loop. */
  method PoliciesToDict(self: Value, ps: map<string, Value>) returns (r: Result<map<string, Value>>)
    requires self.Object? && "policies" in self.attrs && self.attrs["policies"] == Dict(ps)
    ensures r.Ok? <==> PoliciesDict(self, ps).Ok?
    ensures r.Ok? ==> r == PoliciesDict(self, ps)
    decreases self, 0
  {
    var pending := ps.Keys;
    var out: map<string, Value> := map[];
    while pending != {}
      invariant pending <= ps.Keys
      invariant out.Keys == ps.Keys - pending
      invariant forall k :: k in out ==> ToDict(ps[k]).Ok? && out[k] == ToDict(ps[k]).value
      decreases |pending|
    {
      var key :| key in pending;
      var d := CallToDict(ps[key]);
      if d.Err? {
        assert !PoliciesDict(self, ps).Ok? by {
          assert key in ps && !ToDict(ps[key]).Ok?;
        }
        return Err(d.error);
      }
      out := out[key := d.value];
      pending := pending - {key};
    }
    assert forall k :: k in ps ==> ToDict(ps[k]).Ok?;
    assert out == map k | k in ps :: ToDict(ps[k]).value;
    return Ok(out);
  }

  // ---------------------------------------------------------------- what the serialisers promise

  /** After the date loop every listed key held a date and now holds its
      ISO week date; no key is added or removed and no other entry changes. */
  lemma {:induction false} RewriteDatesSpec(m: map<string, Value>, keys: seq<string>)
    requires RewriteDates(m, keys).Ok?
    ensures var r := RewriteDates(m, keys).value;
      && r.Keys == m.Keys
      && (forall k :: k in keys ==> k in m && m[k].DateV? && r[k] == IsoWeekDate(IsoCalendar(m[k].date)))
      && (forall k :: k in m && k !in keys ==> r[k] == m[k])
  {
    if keys != [] {
      var k0 := keys[0];
      var m' := m[k0 := IsoWeekDate(IsoCalendar(m[k0].date))];
      RewriteDatesSpec(m', keys[1..]);
      forall k | k in keys ensures k == k0 || k in keys[1..] {
        var i :| 0 <= i < |keys| && keys[i] == k;
        if i > 0 { assert keys[1..][i - 1] == k; }
      }
    }
  }

  /** The date loop fails as soon as a listed key is missing. */
  lemma {:induction false} RewriteDatesMissing(m: map<string, Value>, keys: seq<string>, k: string)
    requires k in keys && k !in m
    ensures RewriteDates(m, keys).Err?
  {
    if keys[0] != k && keys[0] in m && IsoCalendarOf(m[keys[0]]).Ok? {
      assert k in keys[1..] by {
        var i :| 0 <= i < |keys| && keys[i] == k;
        assert keys[1..][i - 1] == k;
      }
      RewriteDatesMissing(m[keys[0] := IsoCalendarOf(m[keys[0]]).value], keys[1..], k);
    }
  }

  /** The date loop succeeds when every listed key holds a date. */
  lemma {:induction false} RewriteDatesTotal(m: map<string, Value>, keys: seq<string>)
    requires forall i, j :: 0 <= i < j < |keys| ==> keys[i] != keys[j]
    requires forall k :: k in keys ==> k in m && m[k].DateV?
    ensures RewriteDates(m, keys).Ok?
  {
    if keys != [] {
      var m' := m[keys[0] := IsoWeekDate(IsoCalendar(m[keys[0]].date))];
      forall k | k in keys[1..] ensures k in m' && m'[k].DateV? {
        var i :| 0 <= i < |keys[1..]| && keys[1..][i] == k;
        assert keys[i + 1] == k;
      }
      RewriteDatesTotal(m', keys[1..]);
    }
  }

  /** After the decimal loop every listed key that was present holds its
      `float()`; missing keys stay missing and the other entries are
      unchanged. */
  lemma {:induction false} RewriteFloatsSpec(m: map<string, Value>, keys: seq<string>)
    requires forall i, j :: 0 <= i < j < |keys| ==> keys[i] != keys[j]
    requires RewriteFloats(m, keys).Ok?
    ensures var r := RewriteFloats(m, keys).value;
      && r.Keys == m.Keys
      && (forall k :: k in keys && k in m ==> PyFloat(m[k]).Ok? && r[k] == PyFloat(m[k]).value)
      && (forall k :: k in m && k !in keys ==> r[k] == m[k])
  {
    if keys != [] {
      var k0 := keys[0];
      var m' := if k0 in m then m[k0 := PyFloat(m[k0]).value] else m;
      assert k0 !in keys[1..] by {
        forall i | 0 <= i < |keys[1..]| ensures keys[1..][i] != k0 {
          assert keys[1..][i] == keys[i + 1];
        }
      }
      RewriteFloatsSpec(m', keys[1..]);
      forall k | k in keys ensures k == k0 || k in keys[1..] {
        var i :| 0 <= i < |keys| && keys[i] == k;
        if i > 0 { assert keys[1..][i - 1] == k; }
      }
    }
  }

  /** The decimal loop succeeds when every listed key that is present holds
      a decimal. */
  lemma {:induction false} RewriteFloatsTotal(m: map<string, Value>, keys: seq<string>)
    requires forall k :: k in keys && k in m ==> m[k].Dec?
    requires forall i, j :: 0 <= i < j < |keys| ==> keys[i] != keys[j]
    ensures RewriteFloats(m, keys).Ok?
  {
    if keys != [] {
      var k0 := keys[0];
      var m' := if k0 in m then m[k0 := FloatOf(m[k0].d)] else m;
      forall k | k in keys[1..] && k in m' ensures m'[k].Dec? {
        var i :| 0 <= i < |keys[1..]| && keys[1..][i] == k;
        assert keys[i + 1] == k && i + 1 != 0;
      }
      RewriteFloatsTotal(m', keys[1..]);
    }
  }

  /** The rewritten keys of `Policy.to_dict` are all serialised, and no
      key is rewritten twice. */
  lemma PolicyKeyTables()
    ensures forall k :: k in DateKeys ==> k in PolicySerialize && k != "status" && k !in DecimalKeys
    ensures forall k :: k in DecimalKeys ==> k in PolicySerialize && k != "status" && k !in DateKeys
    ensures "status" in PolicySerialize
    ensures forall i, j :: 0 <= i < j < |DateKeys| ==> DateKeys[i] != DateKeys[j]
    ensures forall i, j :: 0 <= i < j < |DecimalKeys| ==> DecimalKeys[i] != DecimalKeys[j]
  {
    assert PolicySerialize[2] == "status";
    forall k | k in DateKeys ensures k in PolicySerialize {
      if k == DateKeys[0] { assert PolicySerialize[3] == k; }
      else if k == DateKeys[1] { assert PolicySerialize[5] == k; }
      else { assert PolicySerialize[6] == k; }
    }
    forall k | k in DecimalKeys ensures k in PolicySerialize {
      if k == DecimalKeys[0] { assert PolicySerialize[7] == k; }
      else { assert PolicySerialize[1] == k; }
    }
  }

  /** `Policy.to_dict()` keeps exactly the `_serialize` keys present on the
      policy, and copies unchanged every entry it does not rewrite. */
  lemma PolicyDictKeys(attrs: map<string, Value>)
    requires PolicyDict(attrs).Ok?
    ensures var r := PolicyDict(attrs).value;
      && (forall k :: k in r <==> k in attrs && k in PolicySerialize)
      && (forall k :: k in r && k != "status" && k !in DateKeys && k !in DecimalKeys ==> r[k] == attrs[k])
  {
    PolicyKeyTables();
    var copy := Restrict(attrs, PolicySerialize);
    var named := copy["status" := AttrName(copy["status"]).value];
    RewriteDatesSpec(named, DateKeys);
    var dated := RewriteDates(named, DateKeys).value;
    RewriteFloatsSpec(dated, DecimalKeys);
    assert PolicyDict(attrs) == RewriteFloats(dated, DecimalKeys);
  }

  /** `status` becomes its `.name`, which for an enumeration member is its
      identifier. */
  lemma PolicyDictStatus(attrs: map<string, Value>)
    requires PolicyDict(attrs).Ok?
    ensures "status" in attrs && "status" in PolicyDict(attrs).value
    ensures PolicyDict(attrs).value["status"] == AttrName(attrs["status"]).value
    ensures attrs["status"].Enum? ==> PolicyDict(attrs).value["status"] == Str(StatusName(attrs["status"].status))
  {
    PolicyKeyTables();
    var copy := Restrict(attrs, PolicySerialize);
    var named := copy["status" := AttrName(copy["status"]).value];
    RewriteDatesSpec(named, DateKeys);
    var dated := RewriteDates(named, DateKeys).value;
    RewriteFloatsSpec(dated, DecimalKeys);
    assert PolicyDict(attrs) == RewriteFloats(dated, DecimalKeys);
    assert "status" !in DateKeys && "status" !in DecimalKeys;
  }

  /** The three dates were dates and become their ISO week dates. */
  lemma PolicyDictDates(attrs: map<string, Value>)
    requires PolicyDict(attrs).Ok?
    ensures forall k :: k in DateKeys ==>
      && k in attrs && attrs[k].DateV? && k in PolicyDict(attrs).value
      && PolicyDict(attrs).value[k] == IsoWeekDate(IsoCalendar(attrs[k].date))
  {
    PolicyKeyTables();
    var copy := Restrict(attrs, PolicySerialize);
    var named := copy["status" := AttrName(copy["status"]).value];
    RewriteDatesSpec(named, DateKeys);
    var dated := RewriteDates(named, DateKeys).value;
    RewriteFloatsSpec(dated, DecimalKeys);
    var r := RewriteFloats(dated, DecimalKeys).value;
    assert PolicyDict(attrs) == Ok(r);
    forall k | k in DateKeys
      ensures k in attrs && attrs[k].DateV? && k in r && r[k] == IsoWeekDate(IsoCalendar(attrs[k].date))
    {
      assert named[k] == attrs[k];
      assert r[k] == dated[k];
    }
  }

  /** Each decimal that is present becomes its `float()`; one that is
      missing stays missing. */
  lemma PolicyDictDecimals(attrs: map<string, Value>)
    requires PolicyDict(attrs).Ok?
    ensures forall k :: k in DecimalKeys && k in attrs ==>
      PyFloat(attrs[k]).Ok? && k in PolicyDict(attrs).value && PolicyDict(attrs).value[k] == PyFloat(attrs[k]).value
    ensures forall k :: k in DecimalKeys && k !in attrs ==> k !in PolicyDict(attrs).value
  {
    PolicyKeyTables();
    var copy := Restrict(attrs, PolicySerialize);
    var named := copy["status" := AttrName(copy["status"]).value];
    RewriteDatesSpec(named, DateKeys);
    var dated := RewriteDates(named, DateKeys).value;
    RewriteFloatsSpec(dated, DecimalKeys);
    var r := RewriteFloats(dated, DecimalKeys).value;
    assert PolicyDict(attrs) == Ok(r);
    forall k | k in DecimalKeys && k in attrs
      ensures PyFloat(attrs[k]).Ok? && k in r && r[k] == PyFloat(attrs[k]).value
    {
      assert dated[k] == named[k] == attrs[k];
    }
  }

  /** `Policy.to_dict()` fails without a `status`, with a `status` that has
      no `.name`, and when a date is missing. */
  lemma PolicyDictErrors(attrs: map<string, Value>)
    ensures "status" !in attrs ==> PolicyDict(attrs) == Err(KeyError)
    ensures "status" in attrs && AttrName(attrs["status"]).Err? ==> PolicyDict(attrs) == Err(AttributeError)
    ensures (exists k :: k in DateKeys && k !in attrs) ==> PolicyDict(attrs).Err?
  {
    if "status" in attrs && AttrName(attrs["status"]).Ok? && exists k :: k in DateKeys && k !in attrs {
      var k :| k in DateKeys && k !in attrs;
      var copy := Restrict(attrs, PolicySerialize);
      RewriteDatesMissing(copy["status" := AttrName(copy["status"]).value], DateKeys, k);
    }
  }

  /** `Policy.to_dict()` succeeds on a policy whose status is a `Status`
      member, whose three dates are dates, and whose decimals, where
      present, are decimals. */
  lemma PolicyDictTotal(attrs: map<string, Value>)
    requires "status" in attrs && attrs["status"].Enum?
    requires forall k :: k in DateKeys ==> k in attrs && attrs[k].DateV?
    requires forall k :: k in DecimalKeys && k in attrs ==> attrs[k].Dec?
    ensures PolicyDict(attrs).Ok?
  {
    PolicyKeyTables();
    var copy := Restrict(attrs, PolicySerialize);
    var named := copy["status" := AttrName(copy["status"]).value];
    RewriteDatesTotal(named, DateKeys);
    RewriteDatesSpec(named, DateKeys);
    RewriteFloatsTotal(RewriteDates(named, DateKeys).value, DecimalKeys);
  }

  /** The decimal loop over a map whose `commission_rate`, if present, is a
      Decimal and whose `premium` is an int beyond the range of a double
      raises OverflowError. */
  lemma RewriteFloatsOverflow(m: map<string, Value>)
    requires "commission_rate" in m ==> m["commission_rate"].Dec?
    requires "premium" in m && m["premium"].Int?
    requires m["premium"].i >= FloatIntLimit || -m["premium"].i >= FloatIntLimit
    ensures RewriteFloats(m, DecimalKeys) == Err(OverflowError)
  {
    var rated := if "commission_rate" in m then m["commission_rate" := PyFloat(m["commission_rate"]).value] else m;
    assert DecimalKeys[1..] == ["premium"];
    assert RewriteFloats(m, DecimalKeys) == RewriteFloats(rated, ["premium"]);
    assert rated["premium"] == m["premium"];
    assert PyFloat(rated["premium"]) == Err(OverflowError);
  }

  /** A policy that would otherwise serialise, but whose `premium` is an int
      beyond the range of a double, makes `float()` raise OverflowError,
      which `to_dict` does not catch. */
  lemma PolicyDictOverflow(attrs: map<string, Value>)
    requires "status" in attrs && attrs["status"].Enum?
    requires forall k :: k in DateKeys ==> k in attrs && attrs[k].DateV?
    requires "commission_rate" in attrs ==> attrs["commission_rate"].Dec?
    requires "premium" in attrs && attrs["premium"].Int?
    requires attrs["premium"].i >= FloatIntLimit || -attrs["premium"].i >= FloatIntLimit
    ensures PolicyDict(attrs) == Err(OverflowError)
  {
    PolicyKeyTables();
    var copy := Restrict(attrs, PolicySerialize);
    var named := copy["status" := AttrName(copy["status"]).value];
    RewriteDatesTotal(named, DateKeys);
    RewriteDatesSpec(named, DateKeys);
    var dated := RewriteDates(named, DateKeys).value;
    assert PolicyDict(attrs) == RewriteFloats(dated, DecimalKeys);
    assert dated["premium"] == attrs["premium"];
    assert "commission_rate" in dated ==> dated["commission_rate"] == attrs["commission_rate"];
    RewriteFloatsOverflow(dated);
  }

  /** `Customer.to_dict()` keeps only `_serialize` keys, replaces `agent` by
      the agent's `to_dict()`, and replaces `policies` by a dictionary with
      the same keys whose values are each policy's `to_dict()`; other
      entries are copied unchanged. */
  lemma CustomerDictSpec(self: Value)
    requires self.Object? && CustomerDict(self).Ok?
    ensures var r := CustomerDict(self).value;
      && r.Dict?
      && (forall k :: k in r.entries <==> k in self.attrs && k in CustomerSerialize)
      && "agent" in self.attrs && r.entries["agent"] == ToDict(self.attrs["agent"]).value
      && "policies" in self.attrs && self.attrs["policies"].Dict? && r.entries["policies"].Dict?
      && r.entries["policies"].entries.Keys == self.attrs["policies"].entries.Keys
      && (forall k :: k in self.attrs["policies"].entries ==>
            ToDict(self.attrs["policies"].entries[k]).Ok? &&
            r.entries["policies"].entries[k] == ToDict(self.attrs["policies"].entries[k]).value)
      && (forall k :: k in r.entries && k != "agent" && k != "policies" ==> r.entries[k] == self.attrs[k])
  {
  }

  /** A customer whose `agent` or `policies` is still `None` cannot be
      serialised: `None` has no `to_dict()` and no `items()`. */
  lemma CustomerNoneFails(self: Value)
    requires self.Object? && "agent" in self.attrs && "policies" in self.attrs
    requires self.attrs["agent"] == NoneV || self.attrs["policies"] == NoneV
    ensures CustomerDict(self).Err?
    ensures self.attrs["agent"] == NoneV ==> CustomerDict(self) == Err(AttributeError)
  {
  }

  /** A `Customer` built from at most one value per `Customer.Fields`
      member, as scraping builds it, keeps the `None` default of `agent`, so
      its `to_dict()` raises AttributeError. */
  lemma CustomerDefaultsFail(args: seq<Value>)
    requires Construct(CustomerDecl, args).Ok? && |args| <= |CustomerFields|
    ensures CustomerDict(Construct(CustomerDecl, args).value) == Err(AttributeError)
  {
    CustomerOrder();
    ConstructPositional(CustomerDecl, args);
    var self := Construct(CustomerDecl, args).value;
    assert self.attrs[CustomerDecl.fields[5].name] == NoneV;
    assert "policies" in self.attrs by {
      assert CustomerDecl.fields[6].name == "policies";
    }
    CustomerNoneFails(self);
  }
}
