/** The shared vocabulary of the extraction engine: locators, the field
    enumerations of agents, customers and policies, the policy status, the
    coercion callables the type tables hold, and the declarations of the
    dataclasses that records are built into. */
module CustomTypes {

  /** `IndexedXpath(xpath, place)`: an XPath expression and the position of
      the match to take when the expression yields a list. */
  datatype IndexedXpath = IndexedXpath(xpath: string, place: int)

  /** `Agent.Fields`. */
  datatype AgentField = Name | ProducerCode | AgencyName | AgencyCode

  /** `Customer.Fields`. */
  datatype CustomerField = Name | Id | Email | Address | SSN

  /** `PolicyFields`. */
  datatype PolicyField =
    Id | Premium | Status | EffectiveDate | TerminationDate
    | LastPaymentDate | CommissionRate | NumberOfInsured

  /** `Status`: the states a policy can be in. */
  datatype Status =
    Active | EndorsementPending | PendingCancelation | ClaimPending | ClaimRejected

  /** A member of either entity enumeration. Both enumerations use the same
      member names, but a member of one is never a key of a table keyed by
      the other. */
  datatype FieldId = AgentF(agent: AgentField) | CustomerF(customer: CustomerField)

  /** Iteration order of the enumerations: declaration order. */
  const AgentFields: seq<AgentField> :=
    [AgentField.Name, ProducerCode, AgencyName, AgencyCode]
  const CustomerFields: seq<CustomerField> :=
    [CustomerField.Name, CustomerField.Id, Email, Address, SSN]
  const PolicyFields: seq<PolicyField> :=
    [PolicyField.Id, Premium, PolicyField.Status, EffectiveDate, TerminationDate,
     LastPaymentDate, CommissionRate, NumberOfInsured]
  const Statuses: seq<Status> :=
    [Active, EndorsementPending, PendingCancelation, ClaimPending, ClaimRejected]

  /** `status.name`: the member's identifier as written in `Status`. */
  function StatusName(s: Status): string
  {
    match s
    case Active => "active"
    case EndorsementPending => "endorsement_pending"
    case PendingCancelation => "pending_cancelation"
    case ClaimPending => "claim_pending"
    case ClaimRejected => "claim_rejected"
  }

  /** `status.value`: `auto()` numbers the members from 1 in declaration
      order. */
  function StatusValue(s: Status): (v: int)
    ensures 1 <= v <= |Statuses| && Statuses[v - 1] == s
  {
    match s
    case Active => 1
    case EndorsementPending => 2
    case PendingCancelation => 3
    case ClaimPending => 4
    case ClaimRejected => 5
  }

  /** The callables a type table can hold: `str`, `int`, `Decimal`,
      `Status` and `Carrier.us_date`. */
  datatype Coercion = StrCall | IntCall | DecimalCall | StatusCall | UsDateCall

  /** `Agent.types`. */
  const AgentTypes: map<FieldId, Coercion> := map[
    AgentF(AgentField.Name) := StrCall,
    AgentF(ProducerCode) := StrCall,
    AgentF(AgencyName) := StrCall,
    AgentF(AgencyCode) := StrCall]

  /** `Customer.types`. */
  const CustomerTypes: map<FieldId, Coercion> := map[
    CustomerF(CustomerField.Name) := StrCall,
    CustomerF(CustomerField.Id) := StrCall,
    CustomerF(Email) := StrCall,
    CustomerF(Address) := StrCall,
    CustomerF(SSN) := IntCall]

  /** The dataclasses whose instances records become. Every policy type
      inherits `Policy.to_dict`; the name tells them apart. */
  datatype ClassKind = AgentClass | CustomerClass | PolicyClass(name: string)

  /** One dataclass attribute, in declaration order: its name and whether
      it has a default (which is always `None` here). */
  datatype FieldDecl = FieldDecl(name: string, defaultsToNone: bool)

  datatype Dataclass = Dataclass(kind: ClassKind, fields: seq<FieldDecl>)

  /** `@dataclass` refuses a field without a default after one with a
      default, and a re-declared name keeps its first position, so the names
      of a declaration are distinct. */
  predicate WellFormed(c: Dataclass)
  {
    && (forall i, j :: 0 <= i < j < |c.fields| ==> c.fields[i].name != c.fields[j].name)
    && (forall i, j :: 0 <= i < j < |c.fields| && c.fields[i].defaultsToNone ==> c.fields[j].defaultsToNone)
  }

  /** The number of leading fields without a default: the fewest positional
      arguments the constructor accepts. */
  function Required(fields: seq<FieldDecl>): (n: nat)
    ensures n <= |fields|
    ensures forall i :: 0 <= i < n ==> !fields[i].defaultsToNone
    ensures n < |fields| ==> fields[n].defaultsToNone
  {
    if fields == [] || fields[0].defaultsToNone then 0 else 1 + Required(fields[1..])
  }

  /** The `Agent` dataclass. */
  const AgentDecl := Dataclass(AgentClass, [
    FieldDecl("name", false), FieldDecl("producer_code", false),
    FieldDecl("agency_name", false), FieldDecl("agency_code", false)])

  /** The `Customer` dataclass: `ssn`, `agent` and `policies` default to
      `None`. */
  const CustomerDecl := Dataclass(CustomerClass, [
    FieldDecl("name", false), FieldDecl("id", false),
    FieldDecl("email", false), FieldDecl("address", false),
    FieldDecl("ssn", true), FieldDecl("agent", true), FieldDecl("policies", true)])

  /** `Agent._serialize` and `Customer._serialize`. */
  const AgentSerialize: seq<string> := ["name", "producer_code", "agency_name", "agency_code"]
  const CustomerSerialize: seq<string> := ["name", "id", "email", "address", "ssn", "agent", "policies"]

  /** The attribute an `Agent.Fields` member fills under positional
      construction, by the naming convention of the source. */
  function AgentAttr(f: AgentField): string
  {
    match f
    case Name => "name"
    case ProducerCode => "producer_code"
    case AgencyName => "agency_name"
    case AgencyCode => "agency_code"
  }

  function CustomerAttr(f: CustomerField): string
  {
    match f
    case Name => "name"
    case Id => "id"
    case Email => "email"
    case Address => "address"
    case SSN => "ssn"
  }

  function PolicyAttr(f: PolicyField): string
  {
    match f
    case Id => "id"
    case Premium => "premium"
    case Status => "status"
    case EffectiveDate => "effective_date"
    case TerminationDate => "termination_date"
    case LastPaymentDate => "last_payment_date"
    case CommissionRate => "commission_rate"
    case NumberOfInsured => "number_of_insured"
  }

  // ---------------------------------------------------------------- lemmas

  /** `Required` counts exactly the fields before the first default. */
  lemma {:induction false} RequiredPrefix(fields: seq<FieldDecl>, n: nat)
    requires n <= |fields|
    requires forall i :: 0 <= i < n ==> !fields[i].defaultsToNone
    requires n < |fields| ==> fields[n].defaultsToNone
    ensures Required(fields) == n
  {
    if n > 0 {
      assert forall i :: 0 <= i < n - 1 ==> fields[1..][i] == fields[i + 1];
      RequiredPrefix(fields[1..], n - 1);
    }
  }

  /** `Agent.Fields` lines up with `Agent`'s attributes: the i-th member
      names the i-th attribute, so positional construction assigns each value
      to its namesake. Every attribute is required. */
  lemma AgentOrder()
    ensures |AgentFields| == |AgentDecl.fields| == 4
    ensures forall i :: 0 <= i < 4 ==> AgentDecl.fields[i].name == AgentAttr(AgentFields[i])
    ensures Required(AgentDecl.fields) == 4 && WellFormed(AgentDecl)
  {
    var fs := AgentDecl.fields;
    assert forall i, j :: 0 <= i < j < |fs| ==> fs[i].name != fs[j].name;
    assert forall i :: 0 <= i < |fs| ==> !fs[i].defaultsToNone;
    RequiredPrefix(fs, 4);
  }

  /** `Customer.Fields` lines up with the first five attributes of
      `Customer`; the last three default to `None`, so four values are the
      fewest its constructor takes. */
  lemma CustomerOrder()
    ensures |CustomerFields| == 5 && |CustomerDecl.fields| == 7
    ensures forall i :: 0 <= i < 5 ==> CustomerDecl.fields[i].name == CustomerAttr(CustomerFields[i])
    ensures CustomerDecl.fields[4].defaultsToNone && CustomerDecl.fields[5].defaultsToNone
         && CustomerDecl.fields[6].defaultsToNone
    ensures CustomerDecl.fields[5].name == "agent" && CustomerDecl.fields[6].name == "policies"
    ensures Required(CustomerDecl.fields) == 4 && WellFormed(CustomerDecl)
  {
    var fs, cs := CustomerDecl.fields, CustomerFields;
    forall i | 0 <= i < 5 ensures fs[i].name == CustomerAttr(cs[i]) {
      if i == 0 { assert cs[0] == CustomerField.Name; }
      else if i == 1 { assert cs[1] == CustomerField.Id; }
      else if i == 2 { assert cs[2] == Email; }
      else if i == 3 { assert cs[3] == Address; }
      else { assert cs[4] == SSN; }
    }
    RequiredPrefix(fs, 4);
    CustomerWellFormed();
  }

  /** `Customer` is a dataclass `@dataclass` accepts: its names are
      distinct and its three defaulted attributes come last. */
  lemma CustomerWellFormed()
    ensures WellFormed(CustomerDecl)
  {
    var fs := CustomerDecl.fields;
    assert forall i, j :: 0 <= i < j < |fs| ==> fs[i].name != fs[j].name;
    assert forall i :: 0 <= i < 4 ==> !fs[i].defaultsToNone;
    assert forall i :: 4 <= i < |fs| ==> fs[i].defaultsToNone;
  }

  /** `Customer.types` converts the SSN with `int` and everything else with
      `str`; `Agent.types` converts everything with `str`. Each table is keyed
      by exactly its own enumeration. */
  lemma TypeTables()
    ensures forall f: CustomerField :: CustomerF(f) in CustomerTypes
    ensures forall f: CustomerField :: CustomerTypes[CustomerF(f)] == if f == SSN then IntCall else StrCall
    ensures forall f: AgentField :: AgentF(f) in AgentTypes && AgentTypes[AgentF(f)] == StrCall
    ensures forall k :: k in CustomerTypes ==> k.CustomerF?
    ensures forall k :: k in AgentTypes ==> k.AgentF?
  {
    forall f: CustomerField
      ensures CustomerF(f) in CustomerTypes
      ensures CustomerTypes[CustomerF(f)] == if f == SSN then IntCall else StrCall
    {
      match f
      case Name => case Id => case Email => case Address => case SSN =>
    }
    forall f: AgentField ensures AgentF(f) in AgentTypes && AgentTypes[AgentF(f)] == StrCall {
      match f
      case Name => case ProducerCode => case AgencyName => case AgencyCode =>
    }
  }

  /** `Status` has exactly five members, each listed once, with the
      spellings of the source. */
  lemma StatusMembers()
    ensures |Statuses| == 5
    ensures forall s: Status :: s in Statuses
    ensures forall i, j :: 0 <= i < j < 5 ==> Statuses[i] != Statuses[j]
    ensures [StatusName(Statuses[0]), StatusName(Statuses[1]), StatusName(Statuses[2]),
             StatusName(Statuses[3]), StatusName(Statuses[4])]
         == ["active", "endorsement_pending", "pending_cancelation", "claim_pending", "claim_rejected"]
  {
    forall s: Status ensures s in Statuses {
      assert Statuses[StatusValue(s) - 1] == s;
    }
  }

  /** Each enumeration lists every member exactly once. */
  lemma EnumerationsComplete()
    ensures forall f: AgentField :: f in AgentFields
    ensures forall f: CustomerField :: f in CustomerFields
    ensures forall f: PolicyField :: f in PolicyFields
    ensures forall i, j :: 0 <= i < j < |PolicyFields| ==> PolicyFields[i] != PolicyFields[j]
    ensures forall i, j :: 0 <= i < j < |CustomerFields| ==> CustomerFields[i] != CustomerFields[j]
    ensures forall i, j :: 0 <= i < j < |AgentFields| ==> AgentFields[i] != AgentFields[j]
  {
    forall f: AgentField ensures f in AgentFields {
      match f
      case Name => assert AgentFields[0] == f;
      case ProducerCode => assert AgentFields[1] == f;
      case AgencyName => assert AgentFields[2] == f;
      case AgencyCode => assert AgentFields[3] == f;
    }
    forall f: CustomerField ensures f in CustomerFields {
      match f
      case Name => assert CustomerFields[0] == f;
      case Id => assert CustomerFields[1] == f;
      case Email => assert CustomerFields[2] == f;
      case Address => assert CustomerFields[3] == f;
      case SSN => assert CustomerFields[4] == f;
    }
    forall f: PolicyField ensures f in PolicyFields {
      match f
      case Id => assert PolicyFields[0] == f;
      case Premium => assert PolicyFields[1] == f;
      case Status => assert PolicyFields[2] == f;
      case EffectiveDate => assert PolicyFields[3] == f;
      case TerminationDate => assert PolicyFields[4] == f;
      case LastPaymentDate => assert PolicyFields[5] == f;
      case CommissionRate => assert PolicyFields[6] == f;
      case NumberOfInsured => assert PolicyFields[7] == f;
    }
  }
}
