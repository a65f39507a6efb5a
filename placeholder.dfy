/** The Placeholder carrier: its locator and coercion tables, the
    `PlaceholderPolicy` declaration, and the pagination walk
    (`fetch_policies`, `fetch_on_this_page`, `get_next_page`): every policy
    container of a page becomes a record, then the first "Next" link is cut
    out of its href and the page it names is walked the same way.

    The walk is a generator; a `Trace` is what a consumer draining it sees:
    the records in the order they are produced and how the generation ended.
    `fuel` bounds the number of pages visited, so a walk that keeps
    visiting pages is observed as a finite prefix ending in `OutOfFuel`. */
module Placeholder {
  import opened PyBuiltins
  import opened CustomTypes
  import opened Values
  import opened Carrier
  import opened FetchData

  // ---------------------------------------------------------------- tables

  /** `Placeholder.PlaceholderPolicy`; as in `MockPolicy`, the doubly
      annotated `effective_date` is one field. */
  const PlaceholderPolicyDecl := Dataclass(PolicyClass("PlaceholderPolicy"), [
    FieldDecl("id", false), FieldDecl("premium", false), FieldDecl("status", false),
    FieldDecl("effective_date", false), FieldDecl("termination_date", false),
    FieldDecl("last_payment_date", false), FieldDecl("commission_rate", false),
    FieldDecl("number_of_insured", false)])

  /** `PlaceholderPolicy._fields`. Nothing reads it: `fetch_policy` reads
      `used_fields`, which the class leaves at the inherited `[]`. */
  const PlaceholderFieldList: seq<PolicyField> :=
    [PolicyField.Id, Premium, PolicyField.Status, EffectiveDate, TerminationDate,
     LastPaymentDate, CommissionRate, NumberOfInsured]

  /** `PlaceholderPolicy.data_types`. */
  const PlaceholderDataTypes: map<PolicyField, Coercion> := map[
    PolicyField.Id := StrCall,
    Premium := DecimalCall,
    PolicyField.Status := StatusCall,
    EffectiveDate := UsDateCall,
    TerminationDate := UsDateCall,
    LastPaymentDate := UsDateCall,
    CommissionRate := DecimalCall,
    NumberOfInsured := IntCall]

  /** The policy locators `PlaceholderPolicy` declares under the name
      `agents_xpath`, so `policy_xpath` stays the inherited empty map. The
      commission rate and the number of insured reuse the locators of the
      termination and last payment dates. */
  const PlaceholderPolicyLocators: map<PolicyField, IndexedXpath> := map[
    PolicyField.Id := IndexedXpath("id", 0),
    Premium := IndexedXpath("premium", 0),
    PolicyField.Status := IndexedXpath("status", 0),
    EffectiveDate := IndexedXpath("effective_date", 0),
    TerminationDate := IndexedXpath("termination_date", 0),
    LastPaymentDate := IndexedXpath("last_payment_date", 0),
    CommissionRate := IndexedXpath("termination_date", 0),
    NumberOfInsured := IndexedXpath("last_payment_date", 0)]

  /** The tables `fetch_policy` sees for `PlaceholderPolicy`. */
  const PlaceholderSchema := PolicySchema(PlaceholderPolicyDecl, map[], [], PlaceholderDataTypes)

  const NameLabel := "//label[@for=\"name\"]/following-sibling::span/text()"
  const CustomerDetails := "//div[contains(@class, \"customer-details\")]"

  /** `Placeholder.agents_xpath`. */
  const PlaceholderAgentsXpath: map<FieldId, IndexedXpath> := map[
    AgentF(AgentField.Name) := IndexedXpath(NameLabel, 0),
    AgentF(ProducerCode) := IndexedXpath("//label[@for=\"producerCode\"]/following-sibling::span/text()", 0),
    AgentF(AgencyName) := IndexedXpath("//label[@for=\"agencyName\"]/following-sibling::span/text()", 0),
    AgentF(AgencyCode) := IndexedXpath("//label[@for=\"agencyCode\"]/following-sibling::span/text()", 0)]

  /** `Placeholder.customer_xpath`. The address locator is a `substring()`
      expression, whose result is a string. */
  const PlaceholderCustomerXpath: map<FieldId, IndexedXpath> := map[
    CustomerF(CustomerField.Name) := IndexedXpath(NameLabel, 1),
    CustomerF(CustomerField.Id) := IndexedXpath(CustomerDetails + "//span/text()", 1),
    CustomerF(Email) := IndexedXpath(CustomerDetails + "/div[@class=\"card-body\"]/text()", 0),
    CustomerF(Address) := IndexedXpath(
      "substring(" + CustomerDetails + "/div[contains(@class, \"card-body\")]/div[4]/text(), 10)", 0),
    CustomerF(SSN) := IndexedXpath(
      CustomerDetails + "/div[contains(@class, \"card-body\")]/div[@style=\"display:none\"]//text()", 1)]

  const PlaceholderUri := "https://scraping-interview.onrender.com/placeholder_carrier/f02dkl4e/policies/1"

  /** `Placeholder` defines neither `POLICIES` nor `policy_type`. */
  const PlaceholderConfig := CarrierConfig(GenericName, GenericSystemName, PlaceholderUri, None, None,
    PlaceholderAgentsXpath, PlaceholderCustomerXpath)

  /** The query for the hrefs of the "Next" links of a page. */
  const NextXpath := "//tfoot//a[contains(., \"Next\")]/@href"

  // ---------------------------------------------------------------- next link

  /** The first next-link href, if any: `len(next_link)` and
      `next_link[0]`. A number or a boolean has no length; an element has
      no `split`. */
  function NextHref(x: XResult): Result<Option<string>>
  {
    match x
    case XOther => Err(TypeError)
    case XStr(s) => Ok(if s == "" then None else Some([s[0]]))
    case XList(items) =>
      if items == [] then Ok(None)
      else if items[0].NodeItem? then Err(AttributeError)
      else Ok(Some(items[0].text))
  }

  /** `href.split('=')[1][1:-1]`: the second `=`-separated piece without
      its first and last characters. */
  function NextLink(href: string): (r: Result<string>)
    ensures r.Err? ==> r.error == IndexError && '=' !in href
    ensures r.Ok? ==> '=' !in r.value
  {
    var parts := Split(href, '=');
    SplitJoin(href, '=');
    if |parts| < 2 then Err(IndexError) else Ok(StripEnds(parts[1]))
  }

  /** Where the walk goes after a page: nowhere when the page has no next
      link, otherwise the page `get_next_page` fetches. */
  function Successor(env: Env, node: Node): Result<Option<Node>>
  {
    var href :- NextHref(env.xpath(node, NextXpath));
    if href.None? then Ok(None)
    else
      var link :- NextLink(href.value);
      var page :- env.fetch(link);
      Ok(Some(page))
  }

  // ---------------------------------------------------------------- one page

  /** `fetch_policy(policy, policy_type)` on a member of the container
      match. A text member has no `xpath`; it fails as soon as the first used
      field is looked up on it. */
  function RecordOf(env: Env, item: Item, schema: PolicySchema): Result<Value>
  {
    match item
    case NodeItem(n) => BuildPolicy(env, n, schema)
    case TextItem(_) =>
      if schema.usedFields == [] then Construct(schema.decl, [])
      else if schema.usedFields[0] !in schema.policyXpath then Err(KeyError)
      else Err(AttributeError)
  }

  /** The records of one page: one per container, in match order, up to the
      first that fails. */
  datatype Page = Page(records: seq<Value>, failure: Option<PyError>)

  function PageRecords(env: Env, items: seq<Item>, schema: PolicySchema): Page
  {
    if items == [] then Page([], None)
    else
      match RecordOf(env, items[0], schema)
      case Err(e) => Page([], Some(e))
      case Ok(v) =>
        var rest := PageRecords(env, items[1..], schema);
        Page([v] + rest.records, rest.failure)
  }

  /** How a walk ends: the last page had no next link, something raised,
      or the page bound was reached first. */
  datatype Ending = Exhausted | Failed(error: PyError) | OutOfFuel

  datatype Trace = Trace(records: seq<Value>, ending: Ending)

  datatype Outcome = Stop(ending: Ending) | Next(page: Node)

  datatype Step = Step(records: seq<Value>, outcome: Outcome)

  /** One run of `fetch_on_this_page` up to the recursive call: the
      records of the page's containers, then the next page or the end. */
  function PageStep(env: Env, node: Node, policies: string, schema: PolicySchema): Step
  {
    match Iterate(env.xpath(node, policies))
    case Err(e) => Step([], Stop(Failed(e)))
    case Ok(items) =>
      var page := PageRecords(env, items, schema);
      if page.failure.Some? then Step(page.records, Stop(Failed(page.failure.value)))
      else
        match Successor(env, node)
        case Err(e) => Step(page.records, Stop(Failed(e)))
        case Ok(None) => Step(page.records, Stop(Exhausted))
        case Ok(Some(next)) => Step(page.records, Next(next))
  }

  // ---------------------------------------------------------------- the walk

  /** The walk from `node`, each page queried on itself. */
  function Walk(env: Env, node: Node, policies: string, schema: PolicySchema, fuel: nat): Trace
    decreases fuel
  {
    if fuel == 0 then Trace([], OutOfFuel)
    else
      var step := PageStep(env, node, policies, schema);
      match step.outcome
      case Stop(e) => Trace(step.records, e)
      case Next(next) =>
        var rest := Walk(env, next, policies, schema, fuel - 1);
        Trace(step.records + rest.records, rest.ending)
  }

  /** The walk as the source writes it: both queries read `self.tree`,
      so every visit queries the first page again, and the fetched page is
      dropped. */
  function WalkAsWritten(env: Env, tree: Node, policies: string, schema: PolicySchema, fuel: nat): Trace
    decreases fuel
  {
    if fuel == 0 then Trace([], OutOfFuel)
    else
      var step := PageStep(env, tree, policies, schema);
      match step.outcome
      case Stop(e) => Trace(step.records, e)
      case Next(_) =>
        var rest := WalkAsWritten(env, tree, policies, schema, fuel - 1);
        Trace(step.records + rest.records, rest.ending)
  }

  /** `fetch_policy` on one container match. */
  method FetchRecord(env: Env, item: Item, schema: PolicySchema) returns (r: Result<Value>)
    ensures r == RecordOf(env, item, schema)
  {
    if item.NodeItem? {
      r := FetchPolicy(env, item.node, schema);
    } else if schema.usedFields == [] {
      r := Construct(schema.decl, []);
    } else if schema.usedFields[0] !in schema.policyXpath {
      r := Err(KeyError);
    } else {
      r := Err(AttributeError);
    }
  }

  /** The container loop of one page: `fetch_policy` on every match, in
      match order, until one raises. */
  method FetchPage(env: Env, items: seq<Item>, schema: PolicySchema) returns (page: Page)
    ensures page == PageRecords(env, items, schema)
  {
    var records: seq<Value> := [];
    var j := 0;
    while j < |items|
      invariant 0 <= j <= |items|
      invariant PageRecords(env, items, schema) ==
        Page(records + PageRecords(env, items[j..], schema).records, PageRecords(env, items[j..], schema).failure)
    {
      assert items[j..][0] == items[j] && items[j..][1..] == items[j + 1..];
      var record := FetchRecord(env, items[j], schema);
      if record.Err? {
        assert PageRecords(env, items[j..], schema) == Page([], Some(record.error));
        assert records + [] == records;
        return Page(records, Some(record.error));
      }
      ghost var rest := PageRecords(env, items[j + 1..], schema);
      assert PageRecords(env, items[j..], schema) == Page([record.value] + rest.records, rest.failure);
      assert records + ([record.value] + rest.records) == (records + [record.value]) + rest.records;
      records := records + [record.value];
      j := j + 1;
    }
    assert items[j..] == [];
    page := Page(records, None);
  }

  /** One visit of `fetch_on_this_page`: the records of the page's
      containers in match order, then the first next link. */
  method VisitPage(env: Env, node: Node, policies: string, schema: PolicySchema) returns (step: Step)
    ensures step == PageStep(env, node, policies, schema)
  {
    var found := Iterate(env.xpath(node, policies));
    if found.Err? {
      return Step([], Stop(Failed(found.error)));
    }
    var page := FetchPage(env, found.value, schema);
    if page.failure.Some? {
      return Step(page.records, Stop(Failed(page.failure.value)));
    }
    var next := Successor(env, node);
    if next.Err? {
      return Step(page.records, Stop(Failed(next.error)));
    }
    if next.value.None? {
      return Step(page.records, Stop(Exhausted));
    }
    step := Step(page.records, Next(next.value.value));
  }

  /** A trace with `records` in front of another's. */
  function Prepend(records: seq<Value>, t: Trace): Trace
  {
    Trace(records + t.records, t.ending)
  }

  lemma PrependTwice(a: seq<Value>, b: seq<Value>, t: Trace)
    ensures Prepend(a, Prepend(b, t)) == Prepend(a + b, t)
    ensures Prepend(a + b, Trace([], t.ending)) == Trace(a + b, t.ending)
  {
    assert a + (b + t.records) == (a + b) + t.records;
    assert a + b + [] == a + b;
  }

  /** The walk page by page, until a page has no next link, something
      raises, or `fuel` pages have been visited. */
  method FetchOnThisPage(env: Env, first: Node, policies: string, schema: PolicySchema, fuel: nat) returns (t: Trace)
    ensures t == Walk(env, first, policies, schema, fuel)
  {
    var node := first;
    var records: seq<Value> := [];
    var n := fuel;
    ghost var whole := Walk(env, first, policies, schema, fuel);
    ghost var tail := whole;
    assert whole == Prepend([], tail);
    while n > 0
      invariant tail == Walk(env, node, policies, schema, n)
      invariant whole == Prepend(records, tail)
      decreases n
    {
      var step := VisitPage(env, node, policies, schema);
      if step.outcome.Stop? {
        assert tail == Prepend(step.records, Trace([], step.outcome.ending));
        PrependTwice(records, step.records, Trace([], step.outcome.ending));
        return Trace(records + step.records, step.outcome.ending);
      }
      ghost var rest := Walk(env, step.outcome.page, policies, schema, n - 1);
      assert tail == Prepend(step.records, rest);
      PrependTwice(records, step.records, rest);
      records := records + step.records;
      node := step.outcome.page;
      n := n - 1;
      tail := rest;
    }
    assert tail == Trace([], OutOfFuel);
    t := Trace(records, OutOfFuel);
  }

  /** `Placeholder.fetch_policies()`: the walk from the carrier's tree,
      which fails at once when no root has been fetched. */
  method FetchPolicies(carrier: CarrierObject, env: Env, policies: string, schema: PolicySchema, fuel: nat)
    returns (t: Trace)
    ensures carrier.tree.None? ==> t == Trace([], Failed(AttributeError))
    ensures carrier.tree.Some? ==> t == Walk(env, carrier.tree.value, policies, schema, fuel)
  {
    if carrier.tree.None? {
      return Trace([], Failed(AttributeError));
    }
    t := FetchOnThisPage(env, carrier.tree.value, policies, schema, fuel);
  }

  // ---------------------------------------------------------------- lemmas: next link

  /** The link is the second `=`-piece of the href without its ends; with
      a quoted value, exactly what is between the quotes. */
  lemma NextLinkSpec(before: string, value: string, after: string)
    requires '=' !in before && '=' !in value
    ensures NextLink(before + ['='] + value) == Ok(StripEnds(value))
    ensures NextLink(before + ['='] + value + ['='] + after) == Ok(StripEnds(value))
  {
    SplitAtFirst(before, '=', value);
    SplitWithoutSeparator(value, '=');
    assert before + ['='] + value + ['='] + after == before + ['='] + (value + ['='] + after);
    SplitAtFirst(before, '=', value + ['='] + after);
    SplitAtFirst(value, '=', after);
  }

  lemma QuotedLink(before: string, x: string)
    requires '=' !in before && '=' !in x
    ensures NextLink(before + "='" + x + "'") == Ok(x)
  {
    var value := ['\''] + x + ['\''];
    assert '=' !in value;
    assert before + "='" + x + "'" == before + ['='] + value;
    NextLinkSpec(before, value, "");
    assert value[1..|value| - 1] == x;
  }

  /** An href without `=` raises IndexError, and the walk fails there
      after the page's records instead of skipping the page. */
  lemma NextLinkMalformed(href: string)
    requires '=' !in href
    ensures NextLink(href) == Err(IndexError)
  {
    SplitWithoutSeparator(href, '=');
  }

  lemma MalformedLinkFails(env: Env, node: Node, href: string, more: seq<Item>)
    requires '=' !in href && env.xpath(node, NextXpath) == XList([TextItem(href)] + more)
    ensures Successor(env, node) == Err(IndexError)
  {
    NextLinkMalformed(href);
  }

  /** Only the first of several next links is followed. */
  lemma FirstLinkOnly(env: Env, node: Node, href: string, more: seq<Item>)
    requires env.xpath(node, NextXpath) == XList([TextItem(href)] + more)
    ensures Successor(env, node) ==
      match NextLink(href)
      case Err(e) => Err(e)
      case Ok(link) => (match env.fetch(link) case Err(e) => Err(e) case Ok(p) => Ok(Some(p)))
  {
    assert ([TextItem(href)] + more)[0] == TextItem(href);
  }

  // ---------------------------------------------------------------- lemmas: pages

  /** A page's records: one per container, in match order, when all
      succeed; otherwise those before the first failure, and its error. */
  lemma {:induction false} PageRecordsSpec(env: Env, items: seq<Item>, schema: PolicySchema)
    ensures PageRecords(env, items, schema).failure.None? <==>
      forall i :: 0 <= i < |items| ==> RecordOf(env, items[i], schema).Ok?
    ensures var page := PageRecords(env, items, schema);
      && |page.records| <= |items|
      && (forall i :: 0 <= i < |page.records| ==>
            RecordOf(env, items[i], schema).Ok? && page.records[i] == RecordOf(env, items[i], schema).value)
      && (page.failure.None? ==> |page.records| == |items|)
      && (page.failure.Some? ==>
            (|page.records| < |items| && RecordOf(env, items[|page.records|], schema) == Err(page.failure.value)))
  {
    if items != [] {
      PageRecordsSpec(env, items[1..], schema);
      assert forall i :: 1 <= i < |items| ==> items[i] == items[1..][i - 1];
      if RecordOf(env, items[0], schema).Ok? {
        var rest := PageRecords(env, items[1..], schema);
        var page := PageRecords(env, items, schema);
        assert page.records == [RecordOf(env, items[0], schema).value] + rest.records;
        forall i | 1 <= i < |page.records|
          ensures RecordOf(env, items[i], schema).Ok? && page.records[i] == RecordOf(env, items[i], schema).value
        {
          assert page.records[i] == rest.records[i - 1];
        }
      }
    }
  }

  /** A page with no next link ends the walk after the page's records. */
  lemma NoLinkEnds(env: Env, node: Node, policies: string, schema: PolicySchema, fuel: nat)
    requires fuel > 0
    requires Iterate(env.xpath(node, policies)).Ok?
    requires PageRecords(env, Iterate(env.xpath(node, policies)).value, schema).failure.None?
    requires env.xpath(node, NextXpath) == XList([]) || env.xpath(node, NextXpath) == XStr("")
    ensures Walk(env, node, policies, schema, fuel) ==
      Trace(PageRecords(env, Iterate(env.xpath(node, policies)).value, schema).records, Exhausted)
  {
  }

  /** A page without containers still looks for its next link. */
  lemma EmptyPageContinues(env: Env, node: Node, policies: string, schema: PolicySchema, fuel: nat, next: Node)
    requires env.xpath(node, policies) == XList([]) || env.xpath(node, policies) == XStr("")
    requires Successor(env, node) == Ok(Some(next))
    ensures Walk(env, node, policies, schema, fuel + 1) == Walk(env, next, policies, schema, fuel)
  {
    assert PageStep(env, node, policies, schema) == Step([], Next(next));
  }

  /** A page's records come out before anything of the page it links to. */
  lemma RecordsBeforeNextPage(env: Env, node: Node, policies: string, schema: PolicySchema, fuel: nat, next: Node)
    requires Iterate(env.xpath(node, policies)).Ok?
    requires PageRecords(env, Iterate(env.xpath(node, policies)).value, schema).failure.None?
    requires Successor(env, node) == Ok(Some(next))
    ensures var here := PageRecords(env, Iterate(env.xpath(node, policies)).value, schema).records;
      var rest := Walk(env, next, policies, schema, fuel);
      Walk(env, node, policies, schema, fuel + 1) == Trace(here + rest.records, rest.ending)
  {
  }

  // ---------------------------------------------------------------- lemmas: chains

  /** `chain` is a linked run of pages: each page's next link leads to the
      following one, and the last has none. */
  ghost predicate IsChain(env: Env, chain: seq<Node>, policies: string, schema: PolicySchema)
  {
    && |chain| >= 1
    && (forall i :: 0 <= i < |chain| - 1 ==> PageStep(env, chain[i], policies, schema).outcome == Next(chain[i + 1]))
    && PageStep(env, chain[|chain| - 1], policies, schema).outcome == Stop(Exhausted)
  }

  /** The records of the pages of a chain, page after page. */
  ghost function ChainRecords(env: Env, chain: seq<Node>, policies: string, schema: PolicySchema): seq<Value>
  {
    if chain == [] then [] else PageStep(env, chain[0], policies, schema).records + ChainRecords(env, chain[1..], policies, schema)
  }

  /** Over a chain of pages, with a bound no smaller than its length, the
      walk produces every page's records in chain order and ends normally. */
  lemma {:induction false} WalkChain(env: Env, chain: seq<Node>, policies: string, schema: PolicySchema, fuel: nat)
    requires IsChain(env, chain, policies, schema) && fuel >= |chain|
    ensures Walk(env, chain[0], policies, schema, fuel) == Trace(ChainRecords(env, chain, policies, schema), Exhausted)
  {
    if |chain| == 1 {
      assert chain[1..] == [];
    } else {
      var tail := chain[1..];
      assert forall i :: 0 <= i < |tail| ==> tail[i] == chain[i + 1];
      assert tail[|tail| - 1] == chain[|chain| - 1];
      assert IsChain(env, tail, policies, schema);
      WalkChain(env, tail, policies, schema, fuel - 1);
    }
  }

  /** With a smaller bound, the walk stops after as many pages of the
      chain as the bound allows. */
  lemma {:induction false} WalkChainPrefix(env: Env, chain: seq<Node>, policies: string, schema: PolicySchema, fuel: nat)
    requires IsChain(env, chain, policies, schema) && fuel < |chain|
    ensures Walk(env, chain[0], policies, schema, fuel) == Trace(ChainRecords(env, chain[..fuel], policies, schema), OutOfFuel)
  {
    if fuel == 0 {
      assert chain[..0] == [];
    } else {
      var tail := chain[1..];
      assert forall i :: 0 <= i < |tail| ==> tail[i] == chain[i + 1];
      assert tail[|tail| - 1] == chain[|chain| - 1];
      assert IsChain(env, tail, policies, schema);
      WalkChainPrefix(env, tail, policies, schema, fuel - 1);
      assert chain[..fuel][0] == chain[0] && chain[..fuel][1..] == tail[..fuel - 1];
    }
  }

  /** A walk that ended before its bound ends the same way with any larger
      bound: the bound only cuts unending walks short. */
  lemma {:induction false} WalkFuel(env: Env, node: Node, policies: string, schema: PolicySchema, fuel: nat, more: nat)
    requires Walk(env, node, policies, schema, fuel).ending != OutOfFuel
    ensures Walk(env, node, policies, schema, fuel + more) == Walk(env, node, policies, schema, fuel)
    decreases fuel
  {
    var step := PageStep(env, node, policies, schema);
    if step.outcome.Next? {
      WalkFuel(env, step.outcome.page, policies, schema, fuel - 1, more);
      assert fuel + more - 1 == fuel - 1 + more;
    }
  }

  // ---------------------------------------------------------------- lemmas: the walk as written

  function Repeat<T>(xs: seq<T>, n: nat): seq<T>
  {
    if n == 0 then [] else xs + Repeat(xs, n - 1)
  }

  /** As written, a first page with a next link is walked again and again:
      its records repeat once per visit and the walk never moves on. */
  lemma {:induction false} AsWrittenRepeats(env: Env, tree: Node, policies: string, schema: PolicySchema, fuel: nat)
    requires PageStep(env, tree, policies, schema).outcome.Next?
    ensures WalkAsWritten(env, tree, policies, schema, fuel) ==
      Trace(Repeat(PageStep(env, tree, policies, schema).records, fuel), OutOfFuel)
  {
    if fuel > 0 {
      AsWrittenRepeats(env, tree, policies, schema, fuel - 1);
    }
  }

  /** As written and corrected agree on a first page without a usable
      next link; they part only when the walk should move on. */
  lemma AsWrittenAgreesOnLastPage(env: Env, tree: Node, policies: string, schema: PolicySchema, fuel: nat)
    requires PageStep(env, tree, policies, schema).outcome.Stop?
    ensures WalkAsWritten(env, tree, policies, schema, fuel) == Walk(env, tree, policies, schema, fuel)
  {
  }

  /** A site of two pages, the first linking to the second with
      `?page='2'`, and no containers on either. */
  function TwoPageSite(): Env
  {
    Env(
      (n: Node, q: string) =>
        if q == NextXpath && n == Node(1, 1) then XList([TextItem("?page='2'")]) else XList([]),
      (u: string) => if u == "2" then Ok(Node(2, 1)) else Err(TransportError),
      true)
  }

  /** The first page of the two-page site links to the second, which
      links nowhere. */
  lemma TwoPageLinks()
    ensures Successor(TwoPageSite(), Node(1, 1)) == Ok(Some(Node(2, 1)))
    ensures Successor(TwoPageSite(), Node(2, 1)) == Ok(None)
  {
    var env := TwoPageSite();
    assert env.xpath(Node(1, 1), NextXpath) == XList([TextItem("?page='2'")]);
    assert NextHref(env.xpath(Node(1, 1), NextXpath)) == Ok(Some("?page='2'"));
    assert "?page='2'" == "?page" + "='" + "2" + "'";
    QuotedLink("?page", "2");
    assert env.fetch("2") == Ok(Node(2, 1));
    assert env.xpath(Node(2, 1), NextXpath) == XList([]);
  }

  /** Neither page of the two-page site has a container. */
  lemma TwoPageSteps(policies: string, schema: PolicySchema)
    requires policies != NextXpath
    ensures PageStep(TwoPageSite(), Node(1, 1), policies, schema) == Step([], Next(Node(2, 1)))
    ensures PageStep(TwoPageSite(), Node(2, 1), policies, schema) == Step([], Stop(Exhausted))
  {
    var env := TwoPageSite();
    TwoPageLinks();
    assert env.xpath(Node(1, 1), policies) == XList([]);
    assert env.xpath(Node(2, 1), policies) == XList([]);
  }

  /** On the two-page site, the corrected walk visits both pages and ends,
      while the walk as written re-reads page 1 on every visit and never
      reaches page 2, whatever the bound. */
  lemma TwoPageSiteWalks(policies: string, schema: PolicySchema, fuel: nat)
    requires policies != NextXpath
    ensures Walk(TwoPageSite(), Node(1, 1), policies, schema, 2 + fuel) == Trace([], Exhausted)
    ensures WalkAsWritten(TwoPageSite(), Node(1, 1), policies, schema, fuel).ending == OutOfFuel
  {
    var env := TwoPageSite();
    TwoPageSteps(policies, schema);
    var chain := [Node(1, 1), Node(2, 1)];
    assert IsChain(env, chain, policies, schema);
    assert chain[1..] == [Node(2, 1)] && [Node(2, 1)][1..] == [];
    assert ChainRecords(env, [Node(2, 1)], policies, schema) == [] + ChainRecords(env, [], policies, schema);
    assert ChainRecords(env, chain, policies, schema) == [] + ChainRecords(env, [Node(2, 1)], policies, schema);
    WalkChain(env, chain, policies, schema, 2 + fuel);
    AsWrittenRepeats(env, Node(1, 1), policies, schema, fuel);
  }

  // ---------------------------------------------------------------- lemmas: the tables

  /** `_fields` lists all eight policy fields in the order of the
      attributes, and all eight attributes are required. */
  lemma PlaceholderOrder()
    ensures |PlaceholderFieldList| == |PlaceholderPolicyDecl.fields| == 8
    ensures forall i :: 0 <= i < 8 ==> PlaceholderPolicyDecl.fields[i].name == PolicyAttr(PlaceholderFieldList[i])
    ensures Required(PlaceholderPolicyDecl.fields) == 8
  {
    var fs, ps := PlaceholderPolicyDecl.fields, PlaceholderFieldList;
    forall i | 0 <= i < 8 ensures fs[i].name == PolicyAttr(ps[i]) {
      if i == 0 { assert ps[0] == PolicyField.Id; }
      else if i == 1 { assert ps[1] == Premium; }
      else if i == 2 { assert ps[2] == PolicyField.Status; }
      else if i == 3 { assert ps[3] == EffectiveDate; }
      else if i == 4 { assert ps[4] == TerminationDate; }
      else if i == 5 { assert ps[5] == LastPaymentDate; }
      else if i == 6 { assert ps[6] == CommissionRate; }
      else { assert ps[7] == NumberOfInsured; }
    }
    RequiredPrefix(fs, 8);
  }

  /** `PlaceholderPolicy` is a dataclass `@dataclass` accepts. */
  lemma PlaceholderWellFormed()
    ensures WellFormed(PlaceholderPolicyDecl)
  {
    var fs := PlaceholderPolicyDecl.fields;
    assert forall i, j :: 0 <= i < j < |fs| ==> fs[i].name != fs[j].name;
    assert forall i :: 0 <= i < |fs| ==> !fs[i].defaultsToNone;
  }

  /** `_fields` and `data_types` cover every policy field, and
      `used_fields` and `policy_xpath` are the inherited empty ones. */
  lemma PlaceholderCoverage()
    ensures forall f: PolicyField :: f in PlaceholderFieldList && f in PlaceholderDataTypes
    ensures PlaceholderSchema.usedFields == [] && PlaceholderSchema.policyXpath == map[]
  {
    EnumerationsComplete();
    forall f: PolicyField ensures f in PlaceholderDataTypes {
      match f
      case Id => case Premium => case Status => case EffectiveDate => case TerminationDate =>
      case LastPaymentDate => case CommissionRate => case NumberOfInsured =>
    }
  }

  /** The commission rate reuses the termination date's locator, the
      number of insured the last payment date's. None of them is ever read:
      even with every field in use, each lookup in the empty `policy_xpath`
      raises KeyError. */
  lemma PlaceholderLocatorsUnused(env: Env, policy: Node)
    ensures PlaceholderPolicyLocators[CommissionRate] == PlaceholderPolicyLocators[TerminationDate]
    ensures PlaceholderPolicyLocators[NumberOfInsured] == PlaceholderPolicyLocators[LastPaymentDate]
    ensures forall f: PolicyField :: f in PlaceholderPolicyLocators && FieldValue(env, policy, PlaceholderSchema, f) == Err(KeyError)
    ensures BuildPolicy(env, policy, PlaceholderSchema.(usedFields := PlaceholderFieldList)) == Err(KeyError)
  {
    forall f: PolicyField ensures f in PlaceholderPolicyLocators {
      match f
      case Id => case Premium => case Status => case EffectiveDate => case TerminationDate =>
      case LastPaymentDate => case CommissionRate => case NumberOfInsured =>
    }
    var schema := PlaceholderSchema.(usedFields := PlaceholderFieldList);
    var fs := PlaceholderFieldList;
    assert fs[..1][..0] == [];
    assert CoercedFields(env, policy, schema, fs[..1]) == Err(KeyError);
    PrefixFailure(env, policy, schema, fs, 1);
  }

  /** Every `PlaceholderPolicy` record fails: `used_fields` is empty, so
      no value reaches a constructor that requires eight. */
  lemma PlaceholderRecordFails(env: Env, item: Item)
    ensures RecordOf(env, item, PlaceholderSchema) == Err(TypeError)
  {
    PlaceholderOrder();
  }

  /** So a Placeholder walk whose first page has a container fails on it
      before producing anything. */
  lemma PlaceholderWalkFails(env: Env, node: Node, policies: string, fuel: nat)
    requires fuel > 0
    requires Iterate(env.xpath(node, policies)).Ok? && Iterate(env.xpath(node, policies)).value != []
    ensures Walk(env, node, policies, PlaceholderSchema, fuel) == Trace([], Failed(TypeError))
  {
    PlaceholderRecordFails(env, Iterate(env.xpath(node, policies)).value[0]);
  }

  /** The customer's name is the second match of the very query whose
      first match is the agent's name; the customer id and SSN also take the
      second match, and every customer field has a locator. */
  lemma PlaceholderPlaces()
    ensures PlaceholderCustomerXpath[CustomerF(CustomerField.Name)].xpath == PlaceholderAgentsXpath[AgentF(AgentField.Name)].xpath
    ensures PlaceholderCustomerXpath[CustomerF(CustomerField.Name)].place == 1
    ensures PlaceholderCustomerXpath[CustomerF(CustomerField.Id)].place == 1
    ensures PlaceholderCustomerXpath[CustomerF(SSN)].place == 1
    ensures forall f: CustomerField :: CustomerF(f) in PlaceholderCustomerXpath
    ensures forall k :: k in PlaceholderAgentsXpath ==> PlaceholderAgentsXpath[k].place == 0
  {
    forall f: CustomerField ensures CustomerF(f) in PlaceholderCustomerXpath {
      match f
      case Name => case Id => case Email => case Address => case SSN =>
    }
  }

  /** `scrape_policies` on the Placeholder carrier fails: after the root
      is fetched, reading the undefined `POLICIES` raises AttributeError. */
  lemma PlaceholderScrapeFails(env: Env)
    ensures ScrapedPolicies(env, PlaceholderConfig.uri, PlaceholderConfig.policies) ==
      if env.fetch(PlaceholderUri).Err? then Err(env.fetch(PlaceholderUri).error) else Err(AttributeError)
  {
  }
}
