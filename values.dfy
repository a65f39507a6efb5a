/** The Python values the engine moves around: what an XPath query returns,
    what a coercion produces, and the dataclass instances records become;
    plus the environment the engine cannot see into (the XPath engine and the
    page fetcher) and the two dictionary steps every serialiser shares. */
module Values {
  import opened PyBuiltins
  import opened Decimals
  import opened Calendar
  import opened CustomTypes

  /** A document element, opaque apart from its identity and how many
      children it has (an lxml element is truthy exactly when it has
      children). */
  datatype Node = Node(id: nat, childCount: nat)

  /** One member of a list an XPath query returns: a text or attribute
      value, or an element. */
  datatype Item = TextItem(text: string) | NodeItem(node: Node)

  /** What `element.xpath(expr)` returns: a string (for a `string()` or
      `substring()` expression), a list of matches, or some other value (a
      number or a boolean). */
  datatype XResult = XStr(s: string) | XList(items: seq<Item>) | XOther

  /** The external collaborators. `xpath` evaluates an expression on an
      element; `fetch` turns a URI into the root of its parsed page;
      `dashFirst` is the iteration order of `frozenset(['-', '/'])`, which
      Python leaves to string hashing. */
  datatype Env = Env(xpath: (Node, string) -> XResult, fetch: string -> Result<Node>, dashFirst: bool)

  datatype Value =
    | NoneV
    | Str(s: string)
    | Element(node: Node)        // an element, as a query returns it
    | ElementStr(of: Node)       // `str(element)`, the element's repr
    | Int(i: int)
    | Dec(d: Decimal)
    | DateV(date: CalendarDate)
    | Enum(status: Status)
    | IsoWeekDate(iso: IsoDate)  // the tuple `date.isocalendar()` returns
    | FloatOf(exact: Decimal)    // `float(x)`, held as the value it rounds
    | Dict(entries: map<string, Value>)
    | Object(cls: ClassKind, attrs: map<string, Value>)

  /** The argument a coercion receives for a located item. */
  function ItemValue(item: Item): Value
  {
    match item
    case TextItem(t) => Str(t)
    case NodeItem(n) => Element(n)
  }

  /** Python truthiness of a located item: a non-empty string, an element
      with children. */
  predicate Truthy(item: Item)
  {
    match item
    case TextItem(t) => t != ""
    case NodeItem(n) => n.childCount > 0
  }

  // ---------------------------------------------------------------- dataclass construction

  /** The attribute map `cls(*args)` builds: the i-th field gets the i-th
      argument, every field past the arguments its default `None`. */
  function Bind(fields: seq<FieldDecl>, args: seq<Value>): map<string, Value>
  {
    if fields == [] then map[]
    else
      var n := |fields| - 1;
      Bind(fields[..n], args)[fields[n].name := if n < |args| then args[n] else NoneV]
  }

  /** `cls(*args)` for a dataclass: too many arguments, or too few to cover
      the fields without a default, raise TypeError. */
  function Construct(c: Dataclass, args: seq<Value>): (r: Result<Value>)
    ensures r.Ok? <==> Required(c.fields) <= |args| <= |c.fields|
    ensures r.Err? ==> r.error == TypeError
    ensures r.Ok? ==> r.value.Object? && r.value.cls == c.kind
  {
    if |args| > |c.fields| || |args| < Required(c.fields) then Err(TypeError)
    else Ok(Object(c.kind, Bind(c.fields, args)))
  }

  /** Positional binding: the object has exactly the declared attributes,
      and each holds its positional argument or `None`. */
  lemma {:induction false} BindPositional(fields: seq<FieldDecl>, args: seq<Value>)
    requires forall i, j :: 0 <= i < j < |fields| ==> fields[i].name != fields[j].name
    ensures forall k :: k in Bind(fields, args) <==> exists i :: 0 <= i < |fields| && fields[i].name == k
    ensures forall i :: 0 <= i < |fields| ==>
      Bind(fields, args)[fields[i].name] == if i < |args| then args[i] else NoneV
  {
    if fields != [] {
      var n := |fields| - 1;
      BindPositional(fields[..n], args);
      var m := Bind(fields, args);
      forall k ensures k in m <==> exists i :: 0 <= i < |fields| && fields[i].name == k {
        if k in m && k != fields[n].name {
          var i :| 0 <= i < n && fields[..n][i].name == k;
          assert fields[i].name == k;
        }
      }
      forall i | 0 <= i < |fields|
        ensures m[fields[i].name] == if i < |args| then args[i] else NoneV
      {
        if i < n {
          assert fields[..n][i] == fields[i];
        }
      }
    }
  }

  /** Under a well-formed declaration, `cls(*args)` succeeds exactly when
      the arguments cover the required fields and do not outnumber the
      fields, raising TypeError otherwise; a success sets attribute
      `fields[i].name` to `args[i]` and the rest to `None`. */
  lemma ConstructPositional(c: Dataclass, args: seq<Value>)
    requires WellFormed(c)
    ensures Construct(c, args).Ok? <==> Required(c.fields) <= |args| <= |c.fields|
    ensures Construct(c, args).Err? ==> Construct(c, args).error == TypeError
    ensures Construct(c, args).Ok? ==> var attrs := Construct(c, args).value.attrs;
      && attrs.Keys == (set i | 0 <= i < |c.fields| :: c.fields[i].name)
      && forall i :: 0 <= i < |c.fields| ==>
           attrs[c.fields[i].name] == if i < |args| then args[i] else NoneV
  {
    BindPositional(c.fields, args);
  }

  // ---------------------------------------------------------------- dictionary copies

  /** A copy of `d` without the keys outside `keep`, as a specification. */
  function Restrict(d: map<string, Value>, keep: seq<string>): map<string, Value>
  {
    map k | k in d && k in keep :: d[k]
  }

  /** The deletion loop every `to_dict` begins with: copy the attribute map,
      then walk a snapshot of its keys and delete each one that is not
      listed in `keep`. */
  method KeepOnly(d: map<string, Value>, keep: seq<string>) returns (r: map<string, Value>)
    ensures forall k :: k in r <==> k in d && k in keep
    ensures forall k :: k in r ==> r[k] == d[k]
    ensures r == Restrict(d, keep)
  {
    r := d;
    var pending := d.Keys;
    while pending != {}
      invariant pending <= d.Keys
      invariant forall k :: k in r <==> k in d && (k in keep || k in pending)
      invariant forall k :: k in r ==> r[k] == d[k]
      decreases |pending|
    {
      var key :| key in pending;
      if key !in keep {
        r := r - {key};
      }
      pending := pending - {key};
    }
  }
}
