# confluence-rs core, modelled in Dafny

This project models the client side of confluence-rs, a small Rust library that talks to Confluence's SOAP API (version 2). The model covers five parts:

- **The element-tree helper** (`src/rpser/xml.rs`, module `Xml`):
  - the fluent builders (`node`, `with_name`, `with_text`, `with_attr`, `with_child`, `with_children`, `with_children_from_iter`) and `cloned`;
  - the first-match path walks `descend` and `get_at_path`, and `descend_first`;
  - the typed text readers `as_long` and `as_string`, with the tree error type.
- **Decimal `u64` parsing** (module `IntParse`). `as_long` relies on Rust's standard parser, so its accepted language and its error kinds (`Empty`, `InvalidDigit`, `Overflow`) are spelled out.
- **Record transforms** (`src/transforms.rs`, module `Transforms`): `from_element` for `Space`, `Page` and `PageSummary`. The page constructors and the page-to-update conversion of `src/page.rs` are in module `Pages`.
- **The service-description scan** (`src/wsdl.rs`, module `Wsdl`). One pass over the parser's events builds the map from operation name to endpoint URL.
- **The session** (`src/lib.rs`, module `Session`):
  - URL normalisation;
  - `call`'s operation lookup;
  - `login`, which builds the session and then stores the token;
  - `logout`'s result rule;
  - `get_space`;
  - the library error and its `From` conversions (module `Errors`).

The builders take `self` by value and return it, so they are functions over an `Element` datatype. The loops of the source are methods, each proved equal to the function that specifies it:

- `with_children_from_iter`'s push loop;
- the `for` loops with early return of `descend` and `get_at_path`;
- `fetch`'s event loop with `break`.

`Session` is a class. `Login` creates it with an empty token and then assigns the token field, as the source does.

The outside world is passed in as parameters:

- the HTTP transport, the XML tokenizer and the SOAP envelope codec are the arrow-typed fields of `Session.Remote`;
- the page coercions `as_int`, `as_boolean` and `as_datetime` are the fields of `Transforms.Coercions`.

Where the source and its documentation differ, the model follows the code. Three cases:

- `Space.spaceGroup` is read from the `name` child, so a successful transform always has `spaceGroup == Some(name)`. There is no `spaceGroup` child in the lookup.
- `as_long` yields an unsigned 64-bit value, while the `Space` and `Page` records declare signed 64-bit fields. The model keeps the parsed `u64` as an unbounded integer.
- `get_space` in `src/lib.rs:129-137` repeats the field mapping of `Space::from_element` (`src/transforms.rs:14-22`) line for line. The model reuses `Transforms.SpaceFromElement` for it.

## Model

| member | source | states |
|---|---|---|
| IntParse.AccumulateMeaning | src/rpser/xml.rs:201-204 | on a digit string the checked multiply-add loop returns the digits' value, or `Overflow` exactly when that value is 2^64 or more |
| IntParse.ParseU64Meaning | src/rpser/xml.rs:201-204 | `parse::<u64>` accepts exactly an optional `+` followed by one or more ASCII digits whose value is below 2^64, and returns that value; `Empty` exactly when nothing follows the optional `+` |
| IntParse.ParseDecimal | src/rpser/xml.rs:201-204 | the decimal rendering of any `u64` parses back to the same number |
| Xml.ClonedIsIdentity | src/rpser/xml.rs:84-91 | `cloned` produces a tree structurally equal to the original |
| Xml.Node | src/rpser/xml.rs:93-100 | a new node has the given name, no attributes, no children and no text |
| Xml.WithName | src/rpser/xml.rs:102-105 | only the name changes |
| Xml.WithText | src/rpser/xml.rs:107-110 | only the text changes, to `Some(text)` |
| Xml.WithAttr | src/rpser/xml.rs:112-117 | the key is inserted or overwritten, other keys keep their values, and nothing else changes |
| Xml.WithChild | src/rpser/xml.rs:119-122 | exactly one child is appended at the end; the old children stay an unchanged prefix |
| Xml.WithChildren | src/rpser/xml.rs:124-129 | the given children are appended in order after the unchanged old ones |
| Xml.WithChildrenPushesEach | src/rpser/xml.rs:124-138 | extending the child list equals pushing each child one at a time |
| Xml.WithChildrenFromIter | src/rpser/xml.rs:131-138 | the push-a-clone loop produces the same element as `with_children` |
| Xml.FirstNamed | src/rpser/xml.rs:150-151 | the index found is the first child with that name; `None` means no child has it |
| Xml.AtPath | src/rpser/xml.rs:146-192 | a failed walk only ever yields `NotFoundAtPath`, whose path is a non-empty prefix of the requested path |
| Xml.Descend | src/rpser/xml.rs:146-164 | the loop with early return and recursion computes exactly `AtPath`; the non-`NotFoundAtPath` arm is unreachable |
| Xml.GetAtPath | src/rpser/xml.rs:174-192 | the borrowed walk, returning a clone, computes exactly `AtPath`, so it agrees with `descend` on every input |
| Xml.AtSingleSegment | src/rpser/xml.rs:174-190 | a one-segment walk returns the first direct child of that name, or fails with the one-element path |
| Xml.AtPathAppend | src/rpser/xml.rs:146-164 | walking `p + q` is walking `p` and then `q`; a failure inside `q` reports `p` followed by the failing part of `q` |
| Xml.AtPathFailurePoint | src/rpser/xml.rs:154-162 | the error path is the walked prefix plus the first segment with no matching child |
| Xml.LaterSiblingsIrrelevant | src/rpser/xml.rs:150-160 | the walk commits to the first matching child and never backtracks, even when the deeper walk fails |
| Xml.WithChildLookup | src/rpser/xml.rs:119-122 | appending a child does not change where an existing path leads; a child with a new name is found by that name |
| Xml.DescendFirst | src/rpser/xml.rs:166-172 | `ExpectedNotEmpty` naming the parent exactly when there are no children; otherwise the first child |
| Xml.DescendFirstAgreesWithPath | src/rpser/xml.rs:166-172 | the first child is also what a walk by its own name reaches |
| Xml.AsString | src/rpser/xml.rs:207-215 | succeeds exactly when a `type` attribute ending in `string` and text are both present, returning the text verbatim; otherwise `ExpectedElementWithType(name, "*:string", type attribute)`, even when only the text is missing |
| Xml.AsLong | src/rpser/xml.rs:194-205 | the same type and text rule with `long` and `"*:long"`; when it holds, the text's `u64` value, or `ParseIntError` naming the element and the parse error's kind |
| Xml.TypeSuffixesExclusive | src/rpser/xml.rs:194-215 | no element is accepted by both `as_long` and `as_string` |
| Xml.AsLongReadsDecimal | src/rpser/xml.rs:194-205 | an element built with a `long` type and the decimal text of a number reads back that number |
| Xml.AsStringReadsText | src/rpser/xml.rs:207-215 | an element built with a `string` type and any text reads back that text |
| Errors.ConversionsKeepKinds | src/lib.rs:196-218 | no two conversions produce the same library error, each is one-to-one, and a tree error equals the `RpcError` conversion of exactly its own `XmlFailure` |
| Pages.NewMinor | src/page.rs:79-84 | no version comment, minor edit |
| Pages.NewMinorWithComment | src/page.rs:86-91 | the given comment, minor edit |
| Pages.WithCreateFields | src/page.rs:95-109 | `id` and `version` are absent, making it a creation request; parent, space, title and content are copied |
| Pages.FromPage | src/page.rs:112-127 | `id` and `version` wrapped in `Some`; space, title and content copied; parent id 0 becomes `None`, any other value `v` becomes `Some(v)` |
| Pages.FromPageKeepsParent | src/page.rs:120-124 | re-encoding "no parent" as 0 gives back the page's parent id; a converted page is never a creation request |
| Transforms.FieldAt | src/transforms.rs:15-21 | a field lookup consults only the first direct child of that name, failing with the one-element path when there is none |
| Transforms.SpaceFromElement | src/transforms.rs:12-24 | fails exactly when some field fails, with the first failing field's error in written order; on success `homePage` is the `as_long` of its child, `key`, `name`, `spaceType` and `url` are the `as_string` of theirs, `description` is the raw text of its child and `spaceGroup` is `Some(name)` |
| Transforms.SpaceNotFoundNamesMissingField | src/transforms.rs:13-23 | a not-found error names exactly one missing direct child among the looked-up fields |
| Transforms.SpaceNeedsAllChildren | src/transforms.rs:13-23 | a missing `description`, `homePage`, `key`, `name`, `type` or `url` child fails the transform |
| Transforms.PageSummaryFromElement | src/transforms.rs:63-73 | fails exactly when some field fails, with the first failing field's error; on success `id` and `parentId` are the `as_long` of their children and `space`, `title` and `url` the `as_string` of theirs |
| Transforms.PageSummaryNeedsAllChildren | src/transforms.rs:63-73 | each of the five children is required |
| Transforms.PageFromElement | src/transforms.rs:26-61 | on success `version` comes from `as_int` of `version` and `content` is the `content` child's text |
| Transforms.PageFieldsFromChildren | src/transforms.rs:28-58 | every field of a built page is what its child's coercion returned: `as_long` for the ids, `as_string` for the texts, `as_int`, `as_datetime` and `as_boolean` for the version, dates and flags |
| Transforms.PageFirstFailureWins | src/transforms.rs:26-61 | the 14 fields are evaluated in written order; the page is built exactly when none fails, and otherwise the first failure is the error |
| Transforms.PageNeedsAllChildren | src/transforms.rs:26-61 | each of the 14 children is required, whatever the coercions do |
| Wsdl.FindNameAttribute | src/wsdl.rs:36 | the first attribute whose displayed name is `name`; `None` exactly when no attribute has that name |
| Wsdl.Fetch | src/wsdl.rs:20-62 | a failed GET is returned as is; otherwise the event loop, which stops at the first parse error, yields exactly `Registry` of the body's events, whatever the status code |
| Wsdl.StopIndex | src/wsdl.rs:51-54 | the number of events read: all before the first parse error |
| Wsdl.RegistryIsLastEntry | src/wsdl.rs:27-57 | a name maps to the endpoint of the last qualifying operation event with that name before the first parse error; no other name is present |
| Wsdl.RegistryStopsAtMalformed | src/wsdl.rs:51-54 | a parse error ends the scan; entries before it are kept and events after it are ignored |
| Wsdl.RegistrySkipsInert | src/wsdl.rs:34-55 | a non-start event, a non-operation tag, or an operation without `name` or `impl` leaves the map as if the event were absent |
| Wsdl.EntryMeaning | src/wsdl.rs:34-48 | an event adds an entry exactly when it is a start tag whose displayed name contains `wsdl:operation`, with a `name` attribute and an `impl` binding; the key is the first `name` value and the URL is the `impl` namespace |
| Session.WsdlUrl | src/lib.rs:59-60 | the result is the base URL plus the fixed service path; the base is the input with exactly one trailing `/` removed, or the input itself when it has none |
| Session.TrailingSlashIgnored | src/lib.rs:59-60 | a URL with and without one trailing slash gives the same service-description URL; only one slash is removed |
| Session.Call | src/lib.rs:158-183 | `MethodNotFoundInWsdl(name)` exactly when the name is not registered; otherwise the envelope is rendered for, and posted to, the registered URL with the method name as action; transport errors become `Http` and codec errors `Rpc` |
| Session.UnknownMethodSendsNothing | src/lib.rs:159-160 | an unregistered method fails the same way whatever the transport and codec would do, so nothing is sent |
| Session.CallReadsOwnEntry | src/lib.rs:159-162 | a call depends on the registry only through the entry for its own name |
| Session.LoginRequest | src/lib.rs:67-71 | `login` with `username` then `password`, as text parameters |
| Session.LogoutRequest | src/lib.rs:86-89 | `logout` with the token as its only parameter |
| Session.GetSpaceRequest | src/lib.rs:119-123 | `getSpace` with `token` then `spaceKey` |
| Session.LoginToken | src/lib.rs:73-76 | the token is the `loginReturn` child's text; a child without text is `ReceivedNoLoginToken`; a missing child is the tree error wrapped as `Rpc` |
| Session.LogoutResult | src/lib.rs:91-100 | `Ok(true)` exactly when the `logoutReturn` text is `true`; `Ok(false)` for any other or absent text; a missing child is the tree error |
| Session.SpaceResult | src/lib.rs:125-137 | a missing `getSpaceReturn` child is the tree error; otherwise that child is read exactly as `Space::from_element` reads it |
| Session.LoginNeedsLoginOperation | src/lib.rs:64-71 | a service description with no scanned `login` operation makes login fail with `MethodNotFoundInWsdl("login")` (the result before the session is dropped); a successful login has `login` registered |
| Session.Session.constructor | src/lib.rs:65 | the session starts with the fetched description and an empty token |
| Session.Session.Login | src/lib.rs:55-81 | returns a new session exactly when `LoginOutcome` succeeds, holding its description and token; otherwise the same error, as returned before the half-built session is dropped |
| Session.Session.Logout | src/lib.rs:84-101 | an unregistered `logout` fails before sending; a failed call's error is returned unchanged; otherwise the reply is read by `LogoutResult`: `Ok(true)` exactly when the `logoutReturn` text is `true`, `Ok(false)` exactly when the child is there with any other or no text |
| Session.Session.GetSpace | src/lib.rs:117-138 | an unregistered `getSpace` fails before sending; a failed call's error is returned unchanged; otherwise the result is `SpaceResult` of the reply, i.e. the tree error for a missing `getSpaceReturn` or the space transform of that child, so `spaceGroup == Some(name)` |

## Left out

- `src/http.rs` (the hyper GET and SOAP POST) is not part of this model. Its two functions are the `get` and `soapAction` fields of `Session.Remote`, which return either a response or an error. Headers and content types are not modelled.
- The XML tokenizer used by `fetch` is the `tokenize` field of `Session.Remote`. It gives an event sequence in which every event is a start tag, a parse error, or something else.
- `src/rpser/mod.rs` is not part of this model. It holds `Method::as_xml`, `Response::from_xml` and the full `RpcError`. The first two are the `render` and `parse` fields of `Session.Remote`. `RpcError` is reduced to "a tree error converted into it" plus an opaque envelope failure.
- `as_int`, `as_boolean` and `as_datetime` are used by the page transform but are not defined in the element helper this model covers. They are the fields of `Transforms.Coercions`. `DateTime` is an opaque value.
- `to_string` on elements delegates to the xmltree writer and is not modelled.
- The `Drop` implementation is not modelled. It logs out and unwraps the result, so it is finalisation that may panic.
- Session.Session.Login: its error results assume that finalising the dropped session succeeds. In the source the session exists from `src/lib.rs:65`. Each later error exit drops it: a failed `login` call, a missing `loginReturn`, or `ReceivedNoLoginToken`. Each drop first sends an extra `logout` with the empty token. If that logout fails, the program panics instead of returning the error. An example is a description that registers neither `login` nor `logout`.
- Session.LoginNeedsLoginOperation: like `Login`, it describes the error returned before the session is dropped, and does not model the panic that a failing finalising logout causes.
- `get_page_by_title` is not modelled: it discards the reply and returns `true`.
- All `debug!`, `trace!` and `error!` logging is not modelled, including the password redaction in `call`.
- Integer widths:
  - `i64` and `i32` record fields are unbounded integers;
  - the `u64` read by `as_long` is stored in them without a conversion check.
- The HTTP status code of the service-description GET is carried but never inspected, as in the source.
- Transforms.PageFromElement: its own contract states only the `version` and `content` relations. The other field relations, the first-failure rule and the required children are stated by `Transforms.PageFieldsFromChildren`, `Transforms.PageFirstFailureWins` and `Transforms.PageNeedsAllChildren`.
- Xml.Descend: consuming `self` (a move in Rust) and the clone made by `get_at_path` are the same value here, so ownership is not modelled.
- The parse error kind for a lone `+` is `Empty`, as in the Rust standard library of the source's era; newer releases report `InvalidDigit`.
