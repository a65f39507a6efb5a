/** The page driver: it fetches a carrier's root page into the carrier
    object, scrapes the unique agent or customer record of a page field by
    field, and lists the policy elements of the root page. The network and
    the HTML parser are the `fetch` collaborator of the environment. */
module FetchData {
  import opened PyBuiltins
  import opened CustomTypes
  import opened Values
  import opened Carrier

  /** The entity `scrape_unique_item` is asked for, standing for both its
      field enumeration (which the loop walks) and its dataclass (which the
      values are passed to). */
  datatype Entity = AgentEntity | CustomerEntity

  function EntityFields(e: Entity): (fs: seq<FieldId>)
    ensures e.AgentEntity? ==> |fs| == |AgentFields| && forall i :: 0 <= i < |fs| ==> fs[i] == AgentF(AgentFields[i])
    ensures e.CustomerEntity? ==> |fs| == |CustomerFields| && forall i :: 0 <= i < |fs| ==> fs[i] == CustomerF(CustomerFields[i])
  {
    match e
    case AgentEntity => [AgentF(AgentField.Name), AgentF(ProducerCode), AgentF(AgencyName), AgentF(AgencyCode)]
    case CustomerEntity =>
      [CustomerF(CustomerField.Name), CustomerF(CustomerField.Id), CustomerF(Email), CustomerF(Address), CustomerF(SSN)]
  }

  function EntityDecl(e: Entity): Dataclass
  {
    match e
    case AgentEntity => AgentDecl
    case CustomerEntity => CustomerDecl
  }

  /** The text a query result provides: the member at `place` of a list,
      a string as it is, and nothing for any other result. */
  function ResolveText(x: XResult, place: int): Result<Option<Item>>
  {
    match x
    case XList(items) => var item :- Subscript(items, place); Ok(Some(item))
    case XStr(s) => Ok(Some(TextItem(s)))
    case XOther => Ok(None)
  }

  /** One pass of the `scrape_unique_item` loop: the locator, always taken
      from `customer_xpath`; the query on the carrier's tree; and, when the
      text is truthy, its conversion by `Customer.types`. `None` means the
      field was skipped. */
  function UniqueValue(cfg: CarrierConfig, tree: Option<Node>, env: Env, f: FieldId): Result<Option<Value>>
  {
    if f !in cfg.customerXpath then Err(KeyError)
    else if tree.None? then Err(AttributeError)
    else
      var loc := cfg.customerXpath[f];
      var text :- ResolveText(env.xpath(tree.value, loc.xpath), loc.place);
      if text.None? || !Truthy(text.value) then Ok(None)
      else if f !in CustomerTypes then Err(KeyError)
      else
        var v :- Coerce(CustomerTypes[f], text.value, env.dashFirst);
        Ok(Some(v))
  }

  /** The `fields` list after the loop has run over `fs`. */
  function UniqueFields(cfg: CarrierConfig, tree: Option<Node>, env: Env, fs: seq<FieldId>): Result<seq<Value>>
  {
    if fs == [] then Ok([])
    else
      var n := |fs| - 1;
      var init :- UniqueFields(cfg, tree, env, fs[..n]);
      var last :- UniqueValue(cfg, tree, env, fs[n]);
      Ok(if last.Some? then init + [last.value] else init)
  }

  /** `scrape_unique_item(cls)` as a value: `cls(*fields)`. */
  function UniqueItem(cfg: CarrierConfig, tree: Option<Node>, env: Env, e: Entity): (r: Result<Value>)
    ensures r.Ok? ==> r.value.Object? && r.value.cls == EntityDecl(e).kind
    ensures r.Ok? ==> UniqueFields(cfg, tree, env, EntityFields(e)).Ok?
  {
    var vs :- UniqueFields(cfg, tree, env, EntityFields(e));
    Construct(EntityDecl(e), vs)
  }

  /** The present values of a list of optional ones, in order. */
  function Somes<T>(xs: seq<Option<T>>): seq<T>
  {
    if xs == [] then [] else (if xs[0].Some? then [xs[0].value] else []) + Somes(xs[1..])
  }

  /** `scrape_policies()` as a value: the root page is fetched first, and
      then `fetch_policies(tree, POLICIES)` lists its matches. A carrier that
      never defines `POLICIES` fails reading it. */
  function ScrapedPolicies(env: Env, uri: string, policies: Option<string>): Result<seq<Item>>
  {
    var root :- env.fetch(uri);
    if policies.None? then Err(AttributeError)
    else Iterate(env.xpath(root, policies.value))
  }

  class FetchData {
    const carrier: CarrierObject
    const uri: string

    /** `FetchData(carrier)`: the URI is the carrier's. */
    constructor (carrier: CarrierObject)
      ensures this.carrier == carrier && uri == carrier.config.uri
    {
      this.carrier := carrier;
      uri := carrier.config.uri;
    }

    /** `get_root()`: the fetched page becomes the carrier's tree; when the
        fetch raises, nothing changes. */
    method GetRoot(env: Env) returns (r: Result<Node>)
      modifies carrier`tree
      ensures r == env.fetch(uri)
      ensures r.Ok? ==> carrier.tree == Some(r.value)
      ensures r.Err? ==> carrier.tree == old(carrier.tree)
    {
      r := env.fetch(uri);
      if r.Ok? {
        carrier.tree := Some(r.value);
      }
    }

    /** `scrape_unique_item(cls)`: walk the entity's fields, append the
        converted value of every field whose text is truthy, and pass the
        list positionally to the entity's dataclass. */
    method ScrapeUniqueItem(env: Env, e: Entity) returns (r: Result<Value>)
      ensures r == UniqueItem(carrier.config, carrier.tree, env, e)
    {
      var fs := EntityFields(e);
      ghost var cfg, tree := carrier.config, carrier.tree;
      var fields: seq<Value> := [];
      var i := 0;
      while i < |fs|
        invariant 0 <= i <= |fs|
        invariant UniqueFields(cfg, tree, env, fs[..i]) == Ok(fields)
      {
        var got := ScrapeField(env, fs[i]);
        assert fs[..i + 1][..i] == fs[..i];
        if got.Err? {
          UniquePrefixFailure(cfg, tree, env, fs, i + 1);
          return Err(got.error);
        }
        if got.value.Some? {
          fields := fields + [got.value.value];
        }
        i := i + 1;
      }
      assert fs[..|fs|] == fs;
      r := Construct(EntityDecl(e), fields);
    }

    /** One pass of the loop in `scrape_unique_item`: look the field up in
        `customer_xpath`, query the tree, and convert a truthy text with
        `Customer.types`; `None` when the field is skipped. */
    method ScrapeField(env: Env, field: FieldId) returns (got: Result<Option<Value>>)
      ensures got == UniqueValue(carrier.config, carrier.tree, env, field)
    {
      var cfg := carrier.config;
      if field !in cfg.customerXpath {
        return Err(KeyError);
      }
      var indexed := cfg.customerXpath[field];
      if carrier.tree.None? {
        return Err(AttributeError);
      }
      var node := env.xpath(carrier.tree.value, indexed.xpath);
      var text: Option<Item> := None;
      if node.XList? {
        var picked := Subscript(node.items, indexed.place);
        if picked.Err? {
          return Err(picked.error);
        }
        text := Some(picked.value);
      } else if node.XStr? {
        text := Some(TextItem(node.s));
      }
      if text.None? || !Truthy(text.value) {
        return Ok(None);
      }
      if field !in CustomerTypes {
        return Err(KeyError);
      }
      var v := Coerce(CustomerTypes[field], text.value, env.dashFirst);
      if v.Err? {
        return Err(v.error);
      }
      got := Ok(Some(v.value));
    }

    /** `scrape_policies()`: fetch the root, then hand back every policy
        element of it in match order, all of them gathered before the first
        is produced. */
    method ScrapePolicies(env: Env) returns (r: Result<seq<Item>>)
      modifies carrier`tree
      ensures r == ScrapedPolicies(env, uri, carrier.config.policies)
      ensures env.fetch(uri).Ok? ==> carrier.tree == Some(env.fetch(uri).value)
      ensures env.fetch(uri).Err? ==> carrier.tree == old(carrier.tree)
    {
      var root := GetRoot(env);
      if root.Err? {
        return Err(root.error);
      }
      if carrier.config.policies.None? {
        return Err(AttributeError);
      }
      r := FetchPolicies(env, root.value, carrier.config.policies.value);
    }
  }

  // ---------------------------------------------------------------- lemmas

  /** A failure among the first k fields is the failure of the whole
      loop. */
  lemma {:induction false} UniquePrefixFailure(cfg: CarrierConfig, tree: Option<Node>, env: Env, fs: seq<FieldId>, k: nat)
    requires k <= |fs| && UniqueFields(cfg, tree, env, fs[..k]).Err?
    ensures UniqueFields(cfg, tree, env, fs) == UniqueFields(cfg, tree, env, fs[..k])
    decreases |fs| - k
  {
    if k < |fs| {
      assert fs[..k + 1][..k] == fs[..k];
      UniquePrefixFailure(cfg, tree, env, fs, k + 1);
    } else {
      assert fs[..k] == fs;
    }
  }

  /** Appending one optional value appends it when present. */
  lemma {:induction false} SomesSnoc<T>(xs: seq<Option<T>>, x: Option<T>)
    ensures Somes(xs + [x]) == Somes(xs) + (if x.Some? then [x.value] else [])
  {
    if xs == [] {
      assert xs + [x] == [x] && [x][0] == x && [x][1..] == [];
      assert Somes([x]) == (if x.Some? then [x.value] else []) + Somes([]);
    } else {
      var ys := xs + [x];
      assert ys[0] == xs[0] && ys[1..] == xs[1..] + [x];
      SomesSnoc(xs[1..], x);
      var head := if xs[0].Some? then [xs[0].value] else [];
      assert Somes(ys) == head + Somes(xs[1..] + [x]);
      assert Somes(xs) == head + Somes(xs[1..]);
    }
  }

  /** There are never more present values than entries, and exactly as
      many when every entry is present. */
  lemma {:induction false} SomesLength<T>(xs: seq<Option<T>>)
    ensures |Somes(xs)| <= |xs|
    ensures |Somes(xs)| == |xs| <==> forall i :: 0 <= i < |xs| ==> xs[i].Some?
  {
    if xs != [] {
      SomesLength(xs[1..]);
      assert forall i :: 1 <= i < |xs| ==> xs[i] == xs[1..][i - 1];
    }
  }

  /** Values before the first missing one keep their positions, and every
      value after it moves one position to the left. */
  lemma {:induction false} SomesShift<T>(xs: seq<Option<T>>, i: nat)
    requires i < |xs| && xs[i].None?
    requires forall j :: 0 <= j < i ==> xs[j].Some?
    ensures |Somes(xs)| >= i
    ensures forall j :: 0 <= j < i ==> Somes(xs)[j] == xs[j].value
    ensures Somes(xs)[i..] == Somes(xs[i + 1..])
  {
    if i == 0 {
      assert xs[1..] == xs[i + 1..];
    } else {
      assert forall j :: 0 <= j < i - 1 ==> xs[1..][j] == xs[j + 1];
      SomesShift(xs[1..], i - 1);
      assert xs[1..][i..] == xs[i + 1..];
    }
  }

  /** The scrape succeeds exactly when every field does; its values are
      then the present ones, in field order. */
  lemma {:induction false} UniqueFieldsSpec(cfg: CarrierConfig, tree: Option<Node>, env: Env, fs: seq<FieldId>)
    ensures UniqueFields(cfg, tree, env, fs).Ok? <==> forall i :: 0 <= i < |fs| ==> UniqueValue(cfg, tree, env, fs[i]).Ok?
    ensures UniqueFields(cfg, tree, env, fs).Ok? ==>
      UniqueFields(cfg, tree, env, fs).value ==
        Somes(seq(|fs|, i requires 0 <= i < |fs| && UniqueValue(cfg, tree, env, fs[i]).Ok? => UniqueValue(cfg, tree, env, fs[i]).value))
  {
    var outs := FieldOutcomes(cfg, tree, env, fs);
    UniqueFieldsCollect(cfg, tree, env, fs);
    CollectSpec(outs);
    if Collect(outs).Ok? {
      var all := seq(|fs|, i requires 0 <= i < |fs| && UniqueValue(cfg, tree, env, fs[i]).Ok? => UniqueValue(cfg, tree, env, fs[i]).value);
      assert Collect(outs).value == all;
    }
  }

  /** The per-field outcomes of the loop in `scrape_unique_item`. */
  function FieldOutcomes(cfg: CarrierConfig, tree: Option<Node>, env: Env, fs: seq<FieldId>): (rs: seq<Result<Option<Value>>>)
    ensures |rs| == |fs| && forall i :: 0 <= i < |fs| ==> rs[i] == UniqueValue(cfg, tree, env, fs[i])
  {
    seq(|fs|, i requires 0 <= i < |fs| => UniqueValue(cfg, tree, env, fs[i]))
  }

  /** The loop collects the outcomes and keeps the present values. */
  lemma {:induction false} UniqueFieldsCollect(cfg: CarrierConfig, tree: Option<Node>, env: Env, fs: seq<FieldId>)
    ensures UniqueFields(cfg, tree, env, fs) ==
      match Collect(FieldOutcomes(cfg, tree, env, fs))
      case Ok(os) => Ok(Somes(os))
      case Err(e) => Err(e)
  {
    var outs := FieldOutcomes(cfg, tree, env, fs);
    if fs != [] {
      var n := |fs| - 1;
      UniqueFieldsCollect(cfg, tree, env, fs[..n]);
      assert FieldOutcomes(cfg, tree, env, fs[..n]) == outs[..n];
      assert outs[n] == UniqueValue(cfg, tree, env, fs[n]);
      var front := Collect(outs[..n]);
      if front.Ok? && outs[n].Ok? {
        var x := outs[n].value;
        assert Collect(outs) == Ok(front.value + [x]);
        SomesSnoc(front.value, x);
        assert Somes(front.value) + [] == Somes(front.value);
      }
    }
  }

  /** A scrape never yields more values than there are fields. */
  lemma UniqueFieldsBound(cfg: CarrierConfig, tree: Option<Node>, env: Env, fs: seq<FieldId>)
    ensures UniqueFields(cfg, tree, env, fs).Ok? ==> |UniqueFields(cfg, tree, env, fs).value| <= |fs|
  {
    UniqueFieldsSpec(cfg, tree, env, fs);
    if UniqueFields(cfg, tree, env, fs).Ok? {
      SomesLength(seq(|fs|, i requires 0 <= i < |fs| && UniqueValue(cfg, tree, env, fs[i]).Ok? => UniqueValue(cfg, tree, env, fs[i]).value));
    }
  }

  /** Locator resolution in `scrape_unique_item`: a list gives the member at
      `place` (IndexError out of range), a string is the text whatever the
      place, and any other result leaves the text `None`. */
  lemma ResolveTextSpec(x: XResult, place: int)
    ensures x.XList? && 0 <= place < |x.items| ==> ResolveText(x, place) == Ok(Some(x.items[place]))
    ensures x.XList? && (place >= |x.items| || place < -|x.items|) ==> ResolveText(x, place) == Err(IndexError)
    ensures x.XStr? ==> ResolveText(x, place) == Ok(Some(TextItem(x.s)))
    ensures x.XOther? ==> ResolveText(x, place) == Ok(None)
  {
  }

  /** An empty text or an element without children is skipped, and so is
      a result that is neither a list nor a string. */
  lemma SkippedFields(cfg: CarrierConfig, tree: Node, env: Env, f: FieldId)
    requires f in cfg.customerXpath
    requires var loc := cfg.customerXpath[f]; var x := env.xpath(tree, loc.xpath);
      x.XOther? || x == XStr("") || (x.XList? && Subscript(x.items, loc.place).Ok? && !Truthy(Subscript(x.items, loc.place).value))
    ensures UniqueValue(cfg, Some(tree), env, f) == Ok(None)
  {
  }

  /** A truthy located item, whether a list member at `place` or a string
      result, is always converted by `Customer.types`, never by a table of
      the entity asked for. */
  lemma KeptFields(cfg: CarrierConfig, tree: Node, env: Env, f: CustomerField, item: Item)
    requires CustomerF(f) in cfg.customerXpath
    requires var loc := cfg.customerXpath[CustomerF(f)];
      ResolveText(env.xpath(tree, loc.xpath), loc.place) == Ok(Some(item)) && Truthy(item)
    ensures UniqueValue(cfg, Some(tree), env, CustomerF(f)) ==
      match Coerce(CustomerTypes[CustomerF(f)], item, env.dashFirst)
      case Ok(v) => Ok(Some(v))
      case Err(e) => Err(e)
  {
    TypeTables();
  }

  /** Asking for an agent on a carrier whose `customer_xpath` is keyed by
      customer fields only fails at the first field with KeyError. */
  lemma AgentScrapeFails(cfg: CarrierConfig, tree: Option<Node>, env: Env)
    requires forall k :: k in cfg.customerXpath ==> k.CustomerF?
    ensures UniqueItem(cfg, tree, env, AgentEntity) == Err(KeyError)
  {
    var fs := EntityFields(AgentEntity);
    assert fs[..1] == [AgentF(AgentField.Name)];
    assert [AgentF(AgentField.Name)][..0] == [];
    assert UniqueFields(cfg, tree, env, fs[..1]) == Err(KeyError);
    UniquePrefixFailure(cfg, tree, env, fs, 1);
  }

  /** Before `get_root` the tree is `None`, so the first located field
      fails with AttributeError. */
  lemma ScrapeBeforeRoot(cfg: CarrierConfig, env: Env, e: Entity)
    requires EntityFields(e)[0] in cfg.customerXpath
    ensures UniqueItem(cfg, None, env, e) == Err(AttributeError)
  {
    var fs := EntityFields(e);
    assert fs[..1][..0] == [];
    assert UniqueFields(cfg, None, env, fs[..1]) == Err(AttributeError);
    UniquePrefixFailure(cfg, None, env, fs, 1);
  }

  /** With every customer field present and truthy, the customer gets all
      five values positionally; `agent` and `policies` stay `None`. */
  lemma CustomerAllFields(cfg: CarrierConfig, tree: Option<Node>, env: Env)
    requires forall i :: 0 <= i < 5 ==>
      (UniqueValue(cfg, tree, env, CustomerF(CustomerFields[i])).Ok?
       && UniqueValue(cfg, tree, env, CustomerF(CustomerFields[i])).value.Some?)
    ensures UniqueItem(cfg, tree, env, CustomerEntity).Ok?
    ensures var attrs := UniqueItem(cfg, tree, env, CustomerEntity).value.attrs;
      && (forall i :: 0 <= i < 5 ==>
            CustomerAttr(CustomerFields[i]) in attrs
            && attrs[CustomerAttr(CustomerFields[i])] == UniqueValue(cfg, tree, env, CustomerF(CustomerFields[i])).value.value)
      && "agent" in attrs && attrs["agent"] == NoneV
      && "policies" in attrs && attrs["policies"] == NoneV
  {
    var fs := EntityFields(CustomerEntity);
    var outs := FieldOutcomes(cfg, tree, env, fs);
    UniqueFieldsCollect(cfg, tree, env, fs);
    CollectSpec(outs);
    SomesAll(Collect(outs).value);
    CustomerFromFive(Somes(Collect(outs).value));
  }

  /** Five positional values build a `Customer` whose attribute for each
      field is that field's value, with `agent` and `policies` left `None`. */
  lemma CustomerFromFive(vs: seq<Value>)
    requires |vs| == 5
    ensures Construct(CustomerDecl, vs).Ok?
    ensures var attrs := Construct(CustomerDecl, vs).value.attrs;
      && (forall i :: 0 <= i < 5 ==> CustomerAttr(CustomerFields[i]) in attrs && attrs[CustomerAttr(CustomerFields[i])] == vs[i])
      && "agent" in attrs && attrs["agent"] == NoneV
      && "policies" in attrs && attrs["policies"] == NoneV
  {
    CustomerOrder();
    ConstructPositional(CustomerDecl, vs);
    var attrs := Construct(CustomerDecl, vs).value.attrs;
    assert attrs[CustomerDecl.fields[5].name] == NoneV;
    assert attrs[CustomerDecl.fields[6].name] == NoneV;
    forall i | 0 <= i < 5
      ensures CustomerAttr(CustomerFields[i]) in attrs && attrs[CustomerAttr(CustomerFields[i])] == vs[i]
    {
      assert CustomerDecl.fields[i].name == CustomerAttr(CustomerFields[i]);
      assert attrs[CustomerDecl.fields[i].name] == vs[i];
    }
  }

  /** When every entry is present, the present values are all the values. */
  lemma {:induction false} SomesAll<T>(xs: seq<Option<T>>)
    requires forall i :: 0 <= i < |xs| ==> xs[i].Some?
    ensures |Somes(xs)| == |xs| && forall i :: 0 <= i < |xs| ==> Somes(xs)[i] == xs[i].value
  {
    if xs != [] {
      assert forall i :: 0 <= i < |xs| - 1 ==> xs[1..][i] == xs[i + 1];
      SomesAll(xs[1..]);
    }
  }

  /** `scrape_policies` lists the root page's matches in order; a carrier
      without `POLICIES` fails after the root has been fetched. */
  lemma ScrapedPoliciesSpec(env: Env, uri: string, policies: Option<string>)
    ensures env.fetch(uri).Err? ==> ScrapedPolicies(env, uri, policies) == Err(env.fetch(uri).error)
    ensures env.fetch(uri).Ok? && policies.None? ==> ScrapedPolicies(env, uri, policies) == Err(AttributeError)
    ensures env.fetch(uri).Ok? && policies.Some? && env.xpath(env.fetch(uri).value, policies.value).XList? ==>
      ScrapedPolicies(env, uri, policies) == Ok(env.xpath(env.fetch(uri).value, policies.value).items)
  {
  }
}
