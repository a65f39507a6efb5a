# Insurance carrier scraper: a Dafny model of the extraction engine

The repository scrapes insurance carrier web portals. A carrier object names
the page to fetch. It holds XPath locators (`IndexedXpath`: an expression
plus the position of the match to take) for every policy, agent and customer
field, and a table of coercions that turn the located text into typed
values: `str`, `int`, `Decimal`, the `Status` enumeration and the carrier's
own `us_date` and `to_decimal`. From these the engine builds records
positionally:

- `Carrier.fetch_policy` builds one policy per container element;
- `FetchData.scrape_unique_item` builds the page's unique agent or customer;
- the Placeholder carrier walks a paginated listing by following each
  page's "Next" link.

Finished records are serialised with their `to_dict` methods.

This project models that engine in Dafny and proves what each step
promises. The model treats the network and the XPath engine as an
environment (`Values.Env`): `fetch` maps a URI to the root of its page, and
`xpath` maps an element and an expression to a string, a list of matches,
or some other value. The modules follow the source files:

| module | file | models |
|---|---|---|
| `PyBuiltins` | pybuiltins.dfy | Python exceptions, `str.split`, indexing, `int()` on digit strings, a stop-at-first-exception collection loop |
| `Decimals` | decimals.dfy | `Decimal(text)` as an exact sign, coefficient and exponent, and the fixed-point rendering that parses back |
| `Calendar` | calendar.dfy | `date(y, m, d)` validity and its two exceptions, `toordinal`, and `isocalendar` as CPython computes it |
| `CustomTypes` | customtypes.dfy | customtypes.py: the field enumerations, `Status`, the type tables, and the dataclass declarations |
| `Values` | values.dfy | the value universe, positional dataclass construction, and the `_serialize` filtering loop |
| `Serialisation` | serialisation.dfy | `Policy.to_dict`, `Agent.to_dict` and `Customer.to_dict` |
| `Carrier` | carrier.dfy | carrier.py: `us_date`, `to_decimal`, locator resolution, `fetch_policy`, `fetch_policies`, and the carrier object |
| `FetchData` | fetchdata.dfy | fetchdata.py: `get_root`, `scrape_unique_item`, `scrape_policies` |
| `Mock` | mock.dfy | mock.py: the `MockPolicy` and `Mock` tables and `Mock()` |
| `Placeholder` | placeholder.dfy | placeholder.py: its tables and the pagination walk |

Code that works step by step in the source is imperative here as well, and
each such method is proved equal to a specification function:

- the carrier object (its `tree` field is updated in place);
- `FetchData`;
- the `fetch_policy` loop;
- the `to_dict` loops;
- `scrape_unique_item`;
- the page walk.

The properties are then proved about those functions.

Several readings had to be chosen.

- **`us_date` is month first.** Its docstring says `dd/mm/yyyy`, but the
  code builds `date(parts[2], parts[0], parts[1])`, so the first number is
  the month. The model follows the code
  (`Carrier.UsDateMonthFirstExample`, `Carrier.UsDateDayFirstRefused`).
- **`us_date` converts every part with `int()`.** A fourth part is ignored
  only if it is itself an integer.
- **`Status(text)` never succeeds on page text.** `Status` is called as a
  coercion, and it looks members up by their `auto()` integer values, so no
  page text names a member (`Carrier.StatusNeverFromPage`). Consequences:
  - no Mock policy can be built (`Mock.MockPolicyNeverBuilds`);
  - a Mock customer fails at the missing SSN locator
    (`Mock.MockCustomerFails`).
- **`scrape_unique_item(cls)`.** The loop iterates `cls` itself
  (fetchdata.py:49) and the result is `cls(*fields)` (fetchdata.py:59), so
  no single Python value fits both roles: the `Customer` dataclass is not
  iterable, and `Customer.Fields(*fields)` is an enumeration lookup, not a
  constructor. Nothing in the repository calls the method. The model
  gives `cls` both roles: an entity (`FetchData.Entity`) names the field
  enumeration the loop walks and the dataclass (`FetchData.EntityDecl`)
  the values are passed to. Each field is looked up in `customer_xpath`
  and `Customer.types` whatever the entity is.
- **The Placeholder walk.** As written it cannot work, so the model makes
  three choices, stated in both the as-written and the corrected walk:
  - `fetch_policy(policy)` lacks its `policy_type` argument; the walk takes
    the schema as a parameter.
  - `Placeholder` never defines `POLICIES`; the container expression is a
    parameter.
  - `yield gen` yields a generator object; the model reads it as
    `yield from gen`, so a consumer sees records.

## Model

| member | source | states |
|---|---|---|
| PyBuiltins.CollectSpec | carrier.py:124-131 | A loop that appends one result per step and stops at the first exception succeeds exactly when every step does. It then returns every value in order. Otherwise it raises the first failing step's exception, after all earlier steps succeeded. |
| PyBuiltins.Split | carrier.py:93 | `str.split(sep)` returns at least one part, and no part contains the separator. |
| PyBuiltins.SplitJoin | carrier.py:93 | Joining the parts of `split(sep)` with `sep` gives back the original string. |
| PyBuiltins.SplitCount | carrier.py:93 | `split(sep)` returns one more part than there are separators. |
| PyBuiltins.SplitAtFirst | placeholder.py:99 | When the text before the first separator has no separator, that text is the first part and the rest is split again. |
| PyBuiltins.ParseInt | carrier.py:93 | `int(text)` either succeeds or raises ValueError. |
| PyBuiltins.ParseIntDigits | carrier.py:93 | `int()` of a non-empty digit string is the number the digits spell. |
| PyBuiltins.ParseIntRejectsLead | carrier.py:93 | `int()` raises ValueError on text starting with anything other than a digit or a sign. |
| PyBuiltins.NatToStringValue | carrier.py:109 | The decimal digits written for a natural number spell that number. |
| PyBuiltins.LeadingZeros | carrier.py:109 | Leading zeros do not change the value of a digit string. |
| Decimals.ParseDecimal | carrier.py:109 | A parsed `Decimal` never has a positive exponent: the accepted text has no exponent part. |
| Decimals.ParseDecimalExact | carrier.py:109 | `Decimal("whole.fraction")` comes out exactly: its coefficient is the number that `whole + fraction` spells, and its exponent is minus the length of the fraction. No rounding happens. |
| Decimals.ParseDecimalInteger | carrier.py:109 | `Decimal(digits)` is that integer, with exponent 0. |
| Decimals.ParseSigned | carrier.py:109 | A leading `-` changes only the sign of the parsed value. |
| Decimals.RenderAlphabet | carrier.py:109 | The fixed-point rendering of a Decimal uses only digits, `-` and `.`, and ends in a digit. |
| Decimals.RenderParse | carrier.py:109 | Parsing the rendering of any Decimal with a non-positive exponent gives back that Decimal. |
| Decimals.ParseRenderParse | carrier.py:109 | Re-rendering a parsed Decimal and parsing the rendering again gives the same result. |
| Calendar.DayOfYear | carrier.py:46 | A valid date's day within its year lies between 1 and the year's length. |
| Calendar.Week1Monday | carrier.py:46 | The Monday of ISO week 1 is a Monday within three days of 1 January, and the week it starts contains 4 January. |
| Calendar.IsoYearLength | carrier.py:46 | An ISO year has 52 or 53 weeks. |
| Calendar.IsoWeekOf | carrier.py:46 | Definition: the week date of a day number, from the week-1 Mondays of the calendar year and its two neighbours, as CPython's `isocalendar` computes it. |
| Calendar.IsoCalendar | carrier.py:46 | Definition: `date.isocalendar()` is the week date of the date's ordinal within its calendar year. |
| Calendar.WeekDateSound | carrier.py:46 | The week-date arithmetic returns a week from 1 to 53 and a weekday from 1 to 7. The Monday of week 1 of the chosen year, plus those weeks and days, is the given day. |
| Calendar.WeekDateBefore | carrier.py:46 | The year the arithmetic picks is the previous one only for days before this year's week 1, and this year only for days before next year's week 1. A day it gives to the next year lies before the week 1 after that. |
| Calendar.YearBounds | carrier.py:46 | Every date lies between three days before the Monday of its year's ISO week 1 and two days after the Monday of the next year's week 1. |
| Calendar.IsoCalendarSound | carrier.py:46 | `date.isocalendar()` returns an ISO year within one of the calendar year, a week from 1 to 53 and a weekday from 1 to 7 that counts from Monday. Together they name exactly the given day. The day lies before the Monday starting the next ISO year's week 1, so the week belongs to the year named. |
| Calendar.IsoWeekOfDay | carrier.py:46 | The same facts for any day number within three days of its calendar year's ISO boundaries. |
| Calendar.IsoWeekCount | carrier.py:46 | The week and weekday of a day number count from the Monday of the named ISO year's week 1. |
| Calendar.IsoWeekYear | carrier.py:46 | A day number lies before the week-1 Monday of the ISO year after the one named. |
| Calendar.WeekCount | carrier.py:46 | The week and weekday counted from a Monday add back up to the day. |
| CustomTypes.StatusValue | customtypes.py:109-120 | Each `Status` member's `auto()` value is its 1-based position in declaration order. |
| CustomTypes.StatusMembers | customtypes.py:109-120 | `Status` has exactly five distinct members: active, endorsement_pending, pending_cancelation, claim_pending and claim_rejected. |
| CustomTypes.Required | customtypes.py:57-63 | The number of leading fields without a default: none of them has one, and the next field does. |
| CustomTypes.RequiredPrefix | customtypes.py:57-63 | When the first n fields lack a default and field n (if any) has one, the required count is n. |
| CustomTypes.AgentOrder | customtypes.py:20-29 | `Agent.Fields` lists Name, ProducerCode, AgencyName and AgencyCode in the order of `Agent`'s four attributes, all required. `Agent` is a well-formed dataclass. |
| CustomTypes.CustomerOrder | customtypes.py:57-70 | `Customer.Fields` matches the first five of `Customer`'s seven attributes in order. `ssn`, `agent` and `policies` default to None, so four values are required. |
| CustomTypes.CustomerWellFormed | customtypes.py:51-63 | `Customer` has distinct attribute names, and no field after a defaulted one lacks a default. |
| CustomTypes.TypeTables | customtypes.py:31-36 | `Customer.types` maps SSN to `int` and every other customer field to `str`. `Agent.types` maps every agent field to `str`. Neither table has other keys. |
| CustomTypes.EnumerationsComplete | customtypes.py:25-29 | Every member of `Agent.Fields`, `Customer.Fields` and `PolicyFields` appears exactly once in its declaration-order list. |
| Values.BindPositional | customtypes.py:51-63 | The i-th positional argument binds the i-th field. Fields beyond the arguments get None, and no other key is bound. |
| Values.ConstructPositional | customtypes.py:51-63 | Calling a well-formed dataclass with positional arguments succeeds exactly when their number lies between the required count and the field count, and raises TypeError otherwise. The instance has exactly the declared attributes. Each holds its positional argument, or None when defaulted. |
| Values.KeepOnly | carrier.py:37-41 | Deleting the keys outside a whitelist from a copied dict keeps exactly the whitelisted keys, with their values unchanged. |
| Serialisation.AgentToDict | customtypes.py:44-48 | `Agent.to_dict` keeps exactly the `_serialize` keys present on the agent, each with its value unchanged. |
| Serialisation.PolicyDict | carrier.py:32-54 | `Policy.to_dict` raises KeyError when `status` is missing. It can raise only KeyError, AttributeError (a value without `name` or `isocalendar`), or ValueError, TypeError and OverflowError (from `float()`). |
| Serialisation.RewriteDates | carrier.py:45-46 | The date loop raises only KeyError (a missing key) or AttributeError (a value that is not a date). |
| Serialisation.RewriteFloats | carrier.py:48-52 | The decimal loop raises only the ValueError, TypeError or OverflowError of `float()`. |
| Serialisation.RewriteFloatsOverflow | carrier.py:48-52 | With a Decimal or missing `commission_rate`, a `premium` int of magnitude at least 2^1024 - 2^970 makes the decimal loop raise OverflowError, which `except KeyError` does not catch. |
| Serialisation.PolicyToDict | carrier.py:32-54 | The loops of `Policy.to_dict` compute the serialised policy or raise its exception. |
| Serialisation.CallToDict | customtypes.py:90-91 | Calling `to_dict` on a value succeeds exactly when its serialisation is defined, and then returns it. |
| Serialisation.CustomerToDict | customtypes.py:82-92 | `Customer.to_dict` succeeds exactly when the customer's serialisation is defined, and then returns it. |
| Serialisation.PoliciesToDict | customtypes.py:91 | The comprehension over `policies` succeeds exactly when every policy serialises, and then returns each key with its policy's dict. |
| Serialisation.RewriteDatesSpec | carrier.py:45-46 | After the date loop, every listed key held a date and now holds its ISO week date. No key is added or removed, and no other entry changes. |
| Serialisation.RewriteDatesMissing | carrier.py:45-46 | A missing date key makes the date loop raise. |
| Serialisation.RewriteDatesTotal | carrier.py:45-46 | The date loop succeeds when every listed key holds a date. |
| Serialisation.RewriteFloatsSpec | carrier.py:48-52 | After the decimal loop, each present key holds `float` of its value, a missing key stays missing, and nothing else changes. |
| Serialisation.RewriteFloatsTotal | carrier.py:48-52 | The decimal loop succeeds when every present key holds a Decimal. |
| Serialisation.PolicyKeyTables | carrier.py:29-30 | The date keys and the decimal keys are whitelisted, distinct, disjoint and different from `status`. |
| Serialisation.PolicyDictKeys | carrier.py:37-41 | A serialised policy's keys are exactly the attributes named in `_serialize`. Every key that is not rewritten keeps its value. |
| Serialisation.PolicyDictStatus | carrier.py:43 | `status` becomes its member's name. |
| Serialisation.PolicyDictDates | carrier.py:45-46 | The three date keys become ISO week-date triples of the dates they held. |
| Serialisation.PolicyDictDecimals | carrier.py:48-52 | `commission_rate` and `premium` become floats when present and stay absent when missing. |
| Serialisation.PolicyDictErrors | carrier.py:43-46 | A missing `status` raises KeyError, and a status without a name raises AttributeError. A missing date key makes serialisation fail. |
| Serialisation.PolicyDictTotal | carrier.py:32-54 | A policy with an enumeration status, three dates and Decimal amounts serialises. |
| Serialisation.PolicyDictOverflow | carrier.py:32-54 | The same policy with an int `premium` beyond the range of a double makes `Policy.to_dict` raise OverflowError. |
| Serialisation.CustomerDictSpec | customtypes.py:86-91 | A serialised customer keeps only `_serialize` keys. `agent` becomes the agent's dict. `policies` becomes a map with the same keys, each holding its policy's dict. Every other entry is unchanged. |
| Serialisation.CustomerNoneFails | customtypes.py:62-63 | A customer whose `agent` or `policies` is still None fails to serialise. A None agent raises AttributeError. |
| Serialisation.CustomerDefaultsFail | customtypes.py:59-63 | Any customer built from the scraped fields alone cannot be serialised. |
| Carrier.UsDate | carrier.py:80-95 | `us_date` returns a valid calendar date or raises ValueError, IndexError or OverflowError, the exceptions of `int()`, the subscripts and `date()`. |
| Carrier.ToDecimal | carrier.py:97-109 | `to_decimal` returns a Decimal with no positive exponent, or raises IndexError (no space) or InvalidOperation (not a number). |
| Carrier.UsDateStripsOneColon | carrier.py:88-89 | `us_date` removes one leading `:`, if present, and nothing else before looking for a separator. |
| Carrier.UsDateCases | carrier.py:88-95 | `us_date` splits on the first separator present, in the set's iteration order, and raises ValueError when neither `-` nor `/` occurs. |
| Carrier.UsDateNoSeparator | carrier.py:91-95 | Text with neither `-` nor `/` raises ValueError. |
| Carrier.UsDateBothSeparators | carrier.py:78 | With both separators present, the split depends on the set's iteration order. |
| Carrier.UsDateOrderIrrelevant | carrier.py:78 | With at most one kind of separator present, the set's iteration order does not matter. |
| Carrier.UsDateSingleSeparator | carrier.py:91-94 | With one kind of separator present, the date is built from the parts split on it. |
| Carrier.UsDateMonthFirst | carrier.py:93-94 | `[:]month<sep>day<sep>year` in digits gives `date(year, month, day)`: the first number is the month. |
| Carrier.UsDateMonthFirstExample | carrier.py:83-94 | "12/31/2000" is 31 December 2000, whatever the separator order. |
| Carrier.UsDateDayFirstRefused | carrier.py:83-94 | The docstring's dd/mm reading of "31/12/2000" raises ValueError. |
| Carrier.Dec31Valid | carrier.py:94 | `date(2000, 12, 31)` is valid; `date(2000, 31, 12)` raises ValueError. |
| Carrier.UsDateExtraPart | carrier.py:93-94 | A fourth part is ignored when it is an integer and raises ValueError otherwise. |
| Carrier.UsDateTooFewParts | carrier.py:94 | Fewer than three integer parts raise IndexError. |
| Carrier.ParseInts | carrier.py:93 | Converting the parts keeps one integer per part, or raises ValueError. |
| Carrier.ParseIntsSnoc | carrier.py:93 | The comprehension converts parts left to right and fails on the first non-integer. |
| Carrier.PercentFree | carrier.py:106-107 | `to_decimal` strips exactly one trailing `%`. |
| Carrier.ToDecimalSecondToken | carrier.py:106-109 | `to_decimal` parses the token after the first space, with or without a trailing `%`. |
| Carrier.ToDecimalOf | carrier.py:108-109 | `to_decimal`'s result is `Decimal` of the second space-separated token. |
| Carrier.ToDecimalNoSpace | carrier.py:108 | Text without a space raises IndexError. |
| Carrier.ToDecimalExact | carrier.py:106-109 | A caption, a space and the rendering of a Decimal give back exactly that Decimal, with or without `%`. |
| Carrier.LocateSpec | carrier.py:127-129 | A string query result is used verbatim whatever `place` is. A list gives its element at `place`, Python-style for negatives, and IndexError out of range. Any other result raises TypeError. |
| Carrier.StatusNeverFromPage | mock.py:33 | Coercing located text through `Status(...)` always raises ValueError. |
| Carrier.CoercedFieldsCollect | carrier.py:124-131 | The attribute loop is the collection loop over the per-field results. |
| Carrier.CoercedFieldsSpec | carrier.py:124-131 | The attribute list succeeds exactly when every used field converts, and then holds one value per field in `used_fields` order. Otherwise it raises the first failing field's exception. |
| Carrier.PrefixFailure | carrier.py:124-131 | Once a prefix of the fields fails, later fields do not change the outcome. |
| Carrier.BuildPolicy | carrier.py:119-133 | A policy built by `fetch_policy` is an instance of the schema's policy class, and exists only when every used field converts. |
| Carrier.FetchPolicy | carrier.py:119-133 | The loop builds the policy from positionally passed coerced attributes, or raises what the first failing step raises. |
| Carrier.FetchPolicies | carrier.py:111-117 | Every list match is yielded in order. A string yields its characters, and any other result raises TypeError. |
| Carrier.CarrierObject.constructor | carrier.py:57-78 | A new carrier object has its configuration, no tree, and the given `policy_elements`. |
| FetchData.EntityFields | fetchdata.py:49 | The loop walks the entity's field enumeration in declaration order. |
| FetchData.FetchData.constructor | fetchdata.py:10-13 | `FetchData(carrier)` keeps the carrier and takes its URI. |
| FetchData.FetchData.GetRoot | fetchdata.py:33-38 | `get_root` sets `carrier.tree` to the fetched page, and changes nothing else. |
| FetchData.FetchData.ScrapeField | fetchdata.py:50-58 | One pass of the loop body gives the field's coerced value, nothing for empty text, or the exception raised. |
| FetchData.UniqueItem | fetchdata.py:40-59 | A scraped unique item is an instance of the entity's dataclass, and exists only when every field's step succeeds. |
| FetchData.FetchData.ScrapeUniqueItem | fetchdata.py:40-59 | The loop computes the unique item of the current tree. |
| FetchData.FetchData.ScrapePolicies | fetchdata.py:61-64 | `scrape_policies` fetches the root first, storing it in the carrier, then yields every policy match in order. |
| FetchData.ResolveTextSpec | fetchdata.py:51-56 | A list result gives the element at `place`, and IndexError out of range. A string is used verbatim with `place` ignored. Any other result leaves the text None. |
| FetchData.SkippedFields | fetchdata.py:52-57 | A field whose text is None, empty or falsy contributes no value. |
| FetchData.KeptFields | fetchdata.py:51-58 | A field whose located text is truthy, whether the list member at `place` or a string result, contributes `Customer.types[field](text)`, or raises what that raises. |
| FetchData.UniqueFieldsCollect | fetchdata.py:48-58 | The `fields` loop is the collection loop over the per-field outcomes, with skipped fields dropped. |
| FetchData.UniqueFieldsSpec | fetchdata.py:48-58 | Scraping succeeds exactly when every field's step does. The values are then the surviving ones, in field order, with later values shifted left past skipped fields. |
| FetchData.UniquePrefixFailure | fetchdata.py:48-58 | Once a prefix of the fields fails, later fields do not change the outcome. |
| FetchData.UniqueFieldsBound | fetchdata.py:57-58 | The scraped list is never longer than the field list. |
| FetchData.SomesLength | fetchdata.py:57-58 | Dropping skipped fields keeps the length exactly when nothing was skipped. |
| FetchData.SomesShift | fetchdata.py:57-59 | After the first skipped field, every later value moves one position left. |
| FetchData.SomesAll | fetchdata.py:57-59 | With no field skipped, the values keep their positions. |
| FetchData.CustomerFromFive | fetchdata.py:59 | Five values build a `Customer` whose five scraped attributes are those values in order, with `agent` and `policies` None. |
| FetchData.CustomerAllFields | fetchdata.py:48-59 | When all five customer fields have text, the customer holds each field's value under its namesake attribute. |
| FetchData.AgentScrapeFails | fetchdata.py:49-50 | Scraping an agent through a `customer_xpath` keyed by customer fields raises KeyError at once. |
| FetchData.ScrapeBeforeRoot | fetchdata.py:51 | Scraping before `get_root` raises AttributeError on the missing tree. |
| FetchData.ScrapedPoliciesSpec | fetchdata.py:61-64 | A fetch failure propagates. A carrier without `POLICIES` raises AttributeError. Otherwise every list match is yielded in order. |
| Mock.NewMock | mock.py:49-59 | `Mock()` has `MockPolicy` as its policy type, no tree, and an empty `policy_elements` map. |
| Mock.MockTablesConsistent | mock.py:24-46 | Every used field has a locator and a coercion, and neither table has other entries. |
| Mock.MockOrder | mock.py:16-28 | `used_fields` lines up with `MockPolicy`'s six attributes, with `effective_date` counted once, and all six are required. |
| Mock.MockWellFormed | mock.py:10-22 | `MockPolicy` has distinct attribute names and no defaults. |
| Mock.MockNamesake | mock.py:16-28 | Six positional values land on their namesake attributes. Any other number raises TypeError. |
| Mock.MockCoercions | mock.py:30-37 | The id uses `str`, the premium `Decimal` and the status `Status`. Exactly the three dates use `us_date`. |
| Mock.MockPlaces | mock.py:39-46 | Every policy and agent locator takes match 0; the customer name takes match 1. |
| Mock.MockPolicyNeverBuilds | mock.py:33 | The status field always fails, with ValueError once located, so no Mock policy is ever built. With a good id and premium, the error is the status field's. |
| Mock.MockCustomerFails | mock.py:78-87 | Scraping a Mock customer never succeeds. Once the first four fields pass, the missing SSN locator raises KeyError. |
| Mock.MockAgentFails | mock.py:67-87 | Asking the Mock carrier for an agent raises KeyError, because `customer_xpath` is keyed by customer fields. |
| Placeholder.NextLink | placeholder.py:99 | Cutting out the next link raises IndexError exactly for an href without `=`. A link cut out contains no `=`. |
| Placeholder.NextLinkSpec | placeholder.py:99 | The next link is the second `=`-separated segment of the href, without its first and last characters. |
| Placeholder.QuotedLink | placeholder.py:99 | `...='x'` gives `x`. |
| Placeholder.NextLinkMalformed | placeholder.py:99 | An href without `=` raises IndexError. |
| Placeholder.MalformedLinkFails | placeholder.py:96-99 | A page whose first next link lacks `=` fails instead of ending quietly. |
| Placeholder.FirstLinkOnly | placeholder.py:96-99 | Only the first next link matters: the walk follows the page its href names, or raises what cutting out or fetching the link raises. |
| Placeholder.PageRecordsSpec | placeholder.py:94-95 | A page yields one record per container, in match order, until the first failure, whose error ends the page. |
| Placeholder.NoLinkEnds | placeholder.py:96-98 | With no next link, the walk ends after the page's records. |
| Placeholder.EmptyPageContinues | placeholder.py:94-96 | A page with no containers still follows its next link. |
| Placeholder.RecordsBeforeNextPage | placeholder.py:94-105 | A page's records come before anything of the page it links to. |
| Placeholder.PrependTwice | placeholder.py:93-105 | Records produced in two steps come out in order. |
| Placeholder.FetchRecord | placeholder.py:95 | One container becomes one record, or raises. |
| Placeholder.FetchPage | placeholder.py:94-95 | The container loop yields each record in order, stopping at the first exception. |
| Placeholder.VisitPage | placeholder.py:94-99 | Visiting one page gives its records and then the next page, the end, or a failure. |
| Placeholder.Walk | placeholder.py:93-105 | Definition: the corrected walk, which queries each page it visits for its containers and its next link. |
| Placeholder.WalkAsWritten | placeholder.py:94-96 | Definition: the walk as written, which queries the first page on every visit and drops the page it fetched. |
| Placeholder.FetchOnThisPage | placeholder.py:93-105 | The page-by-page loop produces exactly the corrected walk from the first page. |
| Placeholder.FetchPolicies | placeholder.py:90-91 | Without a tree the walk raises AttributeError. Otherwise it is the walk from the tree. |
| Placeholder.WalkChain | placeholder.py:93-105 | On a chain of pages linked by their next links, the walk yields every page's records in chain order and ends. |
| Placeholder.WalkChainPrefix | placeholder.py:93-105 | With fewer visits than pages, the walk yields the records of the pages visited. |
| Placeholder.WalkFuel | placeholder.py:93-105 | More page visits do not change a walk that has already ended. |
| Placeholder.AsWrittenRepeats | placeholder.py:94-96 | As written, a first page with a next link is visited again on every step: its records repeat once per visit, and the walk never moves on to another page. |
| Placeholder.AsWrittenAgreesOnLastPage | placeholder.py:94-96 | On a first page without a next link, the as-written and the corrected walk agree. |
| Placeholder.TwoPageLinks | placeholder.py:96-99 | In the two-page site, page 1 links to page 2, and page 2 has no next link. |
| Placeholder.TwoPageSteps | placeholder.py:93-100 | In the two-page site, page 1 moves on to page 2, and page 2 ends the walk. |
| Placeholder.TwoPageSiteWalks | placeholder.py:93-105 | On the two-page site the corrected walk reaches page 2 and ends. The as-written walk re-reads page 1 on every visit and never reaches page 2. |
| Placeholder.PlaceholderOrder | placeholder.py:23-38 | `_fields` lists all eight policy fields in the dataclass's attribute order, all required. |
| Placeholder.PlaceholderWellFormed | placeholder.py:23-31 | `PlaceholderPolicy` has distinct attribute names and no defaults. |
| Placeholder.PlaceholderCoverage | placeholder.py:33-49 | Every policy field is in `_fields` and `data_types`. `used_fields` and `policy_xpath` stay the inherited empty ones. |
| Placeholder.PlaceholderLocatorsUnused | placeholder.py:51-60 | The inner locators are never consulted. Commission rate and number of insured reuse the date locators. With `_fields` as used fields, every lookup raises KeyError. |
| Placeholder.PlaceholderRecordFails | placeholder.py:95 | Every Placeholder record is a call with no arguments, which raises TypeError. |
| Placeholder.PlaceholderWalkFails | placeholder.py:94-95 | A page with at least one container fails at its first record. |
| Placeholder.PlaceholderScrapeFails | fetchdata.py:61-64 | `scrape_policies` on the Placeholder carrier raises the fetch's error, or else AttributeError at the undefined `POLICIES`. |
| Placeholder.PlaceholderPlaces | placeholder.py:64-88 | Customer and agent names share one locator. The customer takes match 1 and the agent match 0. Customer id and SSN take match 1. |

## Left out

- Network and HTML parsing. `urlopen`, `decode`, `encoding()`, `uri_to_xpath` and lxml parsing are the `fetch` collaborator of `Values.Env`, and a page is an opaque `Values.Node`.
- XPath evaluation. This is the `xpath` collaborator of `Values.Env`: it returns a string, a list, or another value.
- `float()`. Floating point is not modelled: `float(d)` is held as `FloatOf(d)`, the value it rounds. The one exception `float()` raises on a number is modelled: an int of magnitude at least 2^1024 - 2^970 raises OverflowError. A decimal string or `Decimal` that large becomes infinity without raising, and is also held as `FloatOf(d)`.
- The full grammars of `int()`, `Decimal()` and `float()`. Whitespace, underscores, exponents, NaN and Infinity are left out. `int()` accepts an optionally signed digit string. `Decimal()` and `float()` of a string accept an optionally signed digit string with at most one `.`.
- Dictionary order. `to_dict` copies a dict and deletes keys, and the model treats the dict as a map.
- Serialisation.CallToDict, Serialisation.CustomerToDict and Serialisation.PoliciesToDict state which exception is raised only up to "it fails". The comprehension over `policies` visits keys in dict order, which a map does not have.
- The iteration order of `frozenset(['-', '/'])`. It depends on string hashing, so it is the `dashFirst` parameter of `Values.Env`.
- Generator laziness. A walk is observed as the records a consumer drains and how the walk ended. `fuel` bounds the number of pages visited, so a walk that keeps visiting pages shows as a finite prefix ending in `OutOfFuel`.
- Relative links. The link cut out of an href is passed to `fetch` as it is; nothing resolves it against the current page.
- The `yield gen` lines (placeholder.py:91, 100, 105). They are read as `yield from gen`; taken literally, a consumer would receive generator objects.
- Placeholder's missing `POLICIES` and `policy_type`. The container expression and the policy schema are parameters of the walk.
- Placeholder's inner `agents_xpath`. `PlaceholderPolicy` declares its locators under that name, so `policy_xpath` remains the inherited empty map, as modelled.
- `Mock.agents_xpath` and `Carrier.agent_xpath`. Mock defines `agents_xpath`, but the base class declares `agent_xpath`. Neither is read by `scrape_unique_item`, which always uses `customer_xpath`.
- FetchData.FetchData.ScrapeUniqueItem: as written, `scrape_unique_item` returns nothing useful for any argument, since no value of `cls` can be both iterated at fetchdata.py:49 and called as the dataclass at fetchdata.py:59. The model gives `cls` both roles (`FetchData.Entity`, `FetchData.EntityDecl`) and describes what the method evidently intends.
- rest.py and main.py. rest.py prints, embeds a JSON literal and calls a method that does not exist; main.py only prints and constructs objects. Neither is part of this model.
- `Carrier.name` and `Carrier.system_name`. They are constants in the carrier configuration, with nothing to prove about them.

## Findings

| source | as written | input that shows it | evidently intended | confidence | as-written member | corrected member |
|---|---|---|---|---|---|---|
| placeholder.py:94-96 | `fetch_on_this_page(node)` queries `self.tree` for containers and for the next link, ignoring `node`, so every visit re-reads the first page | `Placeholder.TwoPageSite`: page 1 links to page 2, which has no next link. As written, the walk re-reads page 1 on every visit and never reaches page 2 (`Placeholder.TwoPageSiteWalks`, `Placeholder.AsWrittenRepeats`); under the `yield from` reading, the recursion would stop only at the interpreter's recursion limit. | query `node`, the page being visited, so the walk moves down the chain and ends | not executed | Placeholder.WalkAsWritten | Placeholder.Walk |
