/** The Mock Indemnity carrier: its policy type `MockPolicy` with the tables
    that drive `fetch_policy`, its agent and customer locators, and a new
    carrier object. */
module Mock {
  import opened PyBuiltins
  import opened CustomTypes
  import opened Values
  import opened Carrier
  import opened FetchData

  /** `MockPolicy`. `effective_date` is annotated twice; a dataclass keeps
      the field once, in its first position, with the later annotation. */
  const MockPolicyDecl := Dataclass(PolicyClass("MockPolicy"), [
    FieldDecl("id", false), FieldDecl("premium", false), FieldDecl("status", false),
    FieldDecl("effective_date", false), FieldDecl("termination_date", false),
    FieldDecl("last_payment_date", false)])

  /** `MockPolicy.used_fields`. */
  const MockUsedFields: seq<PolicyField> :=
    [PolicyField.Id, Premium, PolicyField.Status, EffectiveDate, TerminationDate, LastPaymentDate]

  /** `MockPolicy.data_types`. */
  const MockDataTypes: map<PolicyField, Coercion> := map[
    PolicyField.Id := StrCall,
    Premium := DecimalCall,
    PolicyField.Status := StatusCall,
    EffectiveDate := UsDateCall,
    TerminationDate := UsDateCall,
    LastPaymentDate := UsDateCall]

  /** `MockPolicy.policy_xpath`. */
  const MockPolicyXpath: map<PolicyField, IndexedXpath> := map[
    PolicyField.Id := IndexedXpath("//div[@for=\"id\"]", 0),
    Premium := IndexedXpath("//div[@for=\"premium\"]", 0),
    PolicyField.Status := IndexedXpath("//div[@for=\"status\"]", 0),
    EffectiveDate := IndexedXpath("//div[@for=\"effectiveDate\"]", 0),
    TerminationDate := IndexedXpath("//div[@for=\"terminationDate\"]", 0),
    LastPaymentDate := IndexedXpath("//div[@for=\"lastPaymentDate\"]", 0)]

  const MockSchema := PolicySchema(MockPolicyDecl, MockPolicyXpath, MockUsedFields, MockDataTypes)

  /** `Mock.agents_xpath`. */
  const MockAgentsXpath: map<FieldId, IndexedXpath> := map[
    AgentF(AgentField.Name) :=
      IndexedXpath("//dd[@class=\"value-name value-holder\"][@data-value-for=\"name\"]/text()", 0),
    AgentF(ProducerCode) :=
      IndexedXpath("//dd[@class=\"value-producerCode value-holder\"][@data-value-for=\"producerCode\"]/text()", 0),
    AgentF(AgencyName) :=
      IndexedXpath("//dd[@class=\"value-agencyName value-holder\"][@data-value-for=\"agencyName\"]/text()", 0),
    AgentF(AgencyCode) :=
      IndexedXpath("//dd[@class=\"value-agencyCode value-holder\"][@data-value-for=\"agencyCode\"]/text()", 0)]

  /** `Mock.customer_xpath`, which has no entry for the SSN. */
  const MockCustomerXpath: map<FieldId, IndexedXpath> := map[
    CustomerF(CustomerField.Name) :=
      IndexedXpath("//dd [@class=\"value-name value-holder\"][@data-value-for=\"name\"]/text()", 1),
    CustomerF(CustomerField.Id) :=
      IndexedXpath("//dd [@class=\"value-id value-holder\"][@data-value-for=\"id\"]/text()", 0),
    CustomerF(Email) :=
      IndexedXpath("//dd [@class=\"value-email value-holder\"][@data-value-for=\"email\"]/text()", 0),
    CustomerF(Address) :=
      IndexedXpath("//dd [@class=\"value-address value-holder\"][@data-value-for=\"address\"]/text()", 0)]

  const MockUri := "https://scraping-interview.onrender.com/mock_indemnity/a0dfjw9a"

  const MockPolicies := "//tr[contains(@class, \"policy-info-row\")]"

  const MockConfig := CarrierConfig(GenericName, GenericSystemName, MockUri, Some(MockPolicies),
    Some(MockSchema), MockAgentsXpath, MockCustomerXpath)

  /** `Mock()`: `policy_type` is `MockPolicy`, there is no tree yet, and
      `__init__` sets `policy_elements` to an empty map. */
  method NewMock() returns (m: CarrierObject)
    ensures fresh(m)
    ensures m.config == MockConfig && m.config.policyType == Some(MockSchema)
    ensures m.tree == None && m.policyElements == Some(map[])
  {
    m := new CarrierObject(MockConfig, Some(map[]));
  }

  // ---------------------------------------------------------------- lemmas

  /** Every used field has both a locator and a coercion, and the tables
      have no other entries. */
  lemma MockTablesConsistent()
    ensures forall i :: 0 <= i < |MockUsedFields| ==>
      MockUsedFields[i] in MockPolicyXpath && MockUsedFields[i] in MockDataTypes
    ensures forall f :: f in MockPolicyXpath <==> f in MockUsedFields
    ensures forall f :: f in MockDataTypes <==> f in MockUsedFields
  {
  }

  /** `used_fields` lines up with `MockPolicy`'s attributes, so the six
      values `fetch_policy` passes positionally land on their namesakes (and
      `effective_date` is a single field); all six are required. */
  lemma MockOrder()
    ensures |MockUsedFields| == |MockPolicyDecl.fields| == 6
    ensures forall i :: 0 <= i < 6 ==> MockPolicyDecl.fields[i].name == PolicyAttr(MockUsedFields[i])
    ensures Required(MockPolicyDecl.fields) == 6
  {
    var fs, ps := MockPolicyDecl.fields, MockUsedFields;
    forall i | 0 <= i < 6 ensures fs[i].name == PolicyAttr(ps[i]) {
      if i == 0 { assert ps[0] == PolicyField.Id; }
      else if i == 1 { assert ps[1] == Premium; }
      else if i == 2 { assert ps[2] == PolicyField.Status; }
      else if i == 3 { assert ps[3] == EffectiveDate; }
      else if i == 4 { assert ps[4] == TerminationDate; }
      else { assert ps[5] == LastPaymentDate; }
    }
    RequiredPrefix(fs, 6);
  }

  /** `MockPolicy` is a dataclass `@dataclass` accepts. */
  lemma MockWellFormed()
    ensures WellFormed(MockPolicyDecl)
  {
    var fs := MockPolicyDecl.fields;
    assert forall i, j :: 0 <= i < j < |fs| ==> fs[i].name != fs[j].name;
    assert forall i :: 0 <= i < |fs| ==> !fs[i].defaultsToNone;
  }

  /** Six positional values build a `MockPolicy` whose attribute for each
      used field is that field's value; any other number is a TypeError. */
  lemma MockNamesake(args: seq<Value>)
    ensures |args| != 6 ==> Construct(MockPolicyDecl, args) == Err(TypeError)
    ensures |args| == 6 ==>
      (Construct(MockPolicyDecl, args).Ok?
       && var attrs := Construct(MockPolicyDecl, args).value.attrs;
          forall i :: 0 <= i < 6 ==> PolicyAttr(MockUsedFields[i]) in attrs && attrs[PolicyAttr(MockUsedFields[i])] == args[i])
  {
    MockOrder();
    MockWellFormed();
    if |args| == 6 {
      ConstructPositional(MockPolicyDecl, args);
      forall i | 0 <= i < 6
        ensures PolicyAttr(MockUsedFields[i]) in Construct(MockPolicyDecl, args).value.attrs
      {
        assert MockPolicyDecl.fields[i].name == PolicyAttr(MockUsedFields[i]);
      }
    }
  }

  /** The coercions: `str` for the id, `Decimal` for the premium, `Status`
      for the status and `us_date` for the three dates. */
  lemma MockCoercions()
    ensures MockDataTypes[PolicyField.Id] == StrCall && MockDataTypes[Premium] == DecimalCall
    ensures MockDataTypes[PolicyField.Status] == StatusCall
    ensures forall f :: f in MockDataTypes && MockDataTypes[f] == UsDateCall <==>
      f == EffectiveDate || f == TerminationDate || f == LastPaymentDate
  {
  }

  /** Every policy and agent locator takes the first match; the customer's
      name takes the second. */
  lemma MockPlaces()
    ensures forall f :: f in MockPolicyXpath ==> MockPolicyXpath[f].place == 0
    ensures forall k :: k in MockAgentsXpath ==> MockAgentsXpath[k].place == 0
    ensures MockCustomerXpath[CustomerF(CustomerField.Name)].place == 1
    ensures forall k :: k in MockCustomerXpath && k != CustomerF(CustomerField.Name) ==> MockCustomerXpath[k].place == 0
  {
  }

  /** No Mock policy is ever built: the status text goes through
      `Status(...)`, which looks members up by their integer values, so the
      status field always fails, with ValueError once its locator has found
      something. When the id and the premium convert, the policy fails with
      the status field's error. */
  lemma MockPolicyNeverBuilds(env: Env, policy: Node)
    ensures FieldValue(env, policy, MockSchema, PolicyField.Status).Err?
    ensures var loc := MockPolicyXpath[PolicyField.Status];
      Locate(env.xpath(policy, loc.xpath), loc.place).Ok? ==>
        FieldValue(env, policy, MockSchema, PolicyField.Status) == Err(ValueError)
    ensures BuildPolicy(env, policy, MockSchema).Err?
    ensures FieldValue(env, policy, MockSchema, PolicyField.Id).Ok? && FieldValue(env, policy, MockSchema, Premium).Ok? ==>
      BuildPolicy(env, policy, MockSchema) == FieldValue(env, policy, MockSchema, PolicyField.Status)
  {
    var used := MockUsedFields;
    var loc := MockPolicyXpath[PolicyField.Status];
    var item := Locate(env.xpath(policy, loc.xpath), loc.place);
    if item.Ok? {
      StatusNeverFromPage(item.value, env.dashFirst);
    }
    CoercedFieldsSpec(env, policy, MockSchema, used);
    assert used[2] == PolicyField.Status;
    if FieldValue(env, policy, MockSchema, PolicyField.Id).Ok? && FieldValue(env, policy, MockSchema, Premium).Ok? {
      var first := used[..3];
      assert first == [PolicyField.Id, Premium, PolicyField.Status];
      CoercedFieldsSpec(env, policy, MockSchema, first);
      PrefixFailure(env, policy, MockSchema, used, 3);
    }
  }

  /** Scraping a Mock customer never succeeds: `customer_xpath` has no SSN
      entry, so once the first four fields are through, the SSN lookup
      raises KeyError. */
  lemma MockCustomerFails(tree: Option<Node>, env: Env)
    ensures UniqueItem(MockConfig, tree, env, CustomerEntity).Err?
    ensures (forall i :: 0 <= i < 4 ==> UniqueValue(MockConfig, tree, env, CustomerF(CustomerFields[i])).Ok?) ==>
      UniqueItem(MockConfig, tree, env, CustomerEntity) == Err(KeyError)
  {
    var fs := EntityFields(CustomerEntity);
    assert fs[4] == CustomerF(SSN) && CustomerF(SSN) !in MockCustomerXpath;
    UniqueFieldsSpec(MockConfig, tree, env, fs);
    if forall i :: 0 <= i < 4 ==> UniqueValue(MockConfig, tree, env, CustomerF(CustomerFields[i])).Ok? {
      UniqueFieldsSpec(MockConfig, tree, env, fs[..4]);
      assert UniqueFields(MockConfig, tree, env, fs[..4]).Ok?;
      assert fs[..5][..4] == fs[..4] && fs[..5] == fs;
    }
  }

  /** Asking the Mock carrier for an agent fails at once: its
      `customer_xpath` is keyed by customer fields. */
  lemma MockAgentFails(tree: Option<Node>, env: Env)
    ensures UniqueItem(MockConfig, tree, env, AgentEntity) == Err(KeyError)
  {
    AgentScrapeFails(MockConfig, tree, env);
  }
}
