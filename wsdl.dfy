/** The operation registry of src/wsdl.rs: one pass over the pull-parser
    events of a service description, collecting operation name -> endpoint
    URL. The tokenizer is not part of this model; its event sequence is an
    input. */
module Wsdl {
  import opened Wrappers
  import opened Http

  /** `xml::name::OwnedName`. */
  datatype QName = QName(localName: string, namespace: Option<string>, prefix: Option<string>)

  /** How the parser library displays a name: `{namespace}prefix:local`,
      each part present only when set. Both name tests of the scan compare
      against this text. */
  function QNameText(q: QName): string {
    (if q.namespace.Some? then "{" + q.namespace.value + "}" else "") +
    (if q.prefix.Some? then q.prefix.value + ":" else "") +
    q.localName
  }

  datatype Attribute = Attribute(name: QName, value: string)

  /** The parser's events, reduced to what the scan tells apart: a start tag
      with its attributes and the namespace bindings in scope, a parse error,
      and everything else. */
  datatype XmlEvent =
    | StartElement(name: QName, attributes: seq<Attribute>, namespace: map<string, string>)
    | Malformed(message: string)
    | OtherEvent

  /** `wsdl::Operation`. */
  datatype Operation = Operation(url: string)

  /** `wsdl::Wsdl`. */
  datatype Wsdl = Wsdl(operations: map<string, Operation>)

  predicate IsPrefix(p: string, s: string) {
    |p| <= |s| && s[..|p|] == p
  }

  /** `str::contains`. */
  predicate Contains(s: string, sub: string) {
    exists i :: 0 <= i <= |s| && IsPrefix(sub, s[i..])
  }

  /** `attributes.iter().find(|a| a.name.to_string() == "name")`. */
  function FindNameAttribute(attributes: seq<Attribute>): (r: Option<Attribute>)
    ensures r.None? <==> forall i :: 0 <= i < |attributes| ==> QNameText(attributes[i].name) != "name"
    ensures r.Some? ==> exists i :: 0 <= i < |attributes| && attributes[i] == r.value &&
                          QNameText(r.value.name) == "name" &&
                          forall j :: 0 <= j < i ==> QNameText(attributes[j].name) != "name"
  {
    if attributes == [] then None
    else if QNameText(attributes[0].name) == "name" then Some(attributes[0])
    else
      var rest := FindNameAttribute(attributes[1..]);
      assert forall i :: 1 <= i < |attributes| ==> attributes[i] == attributes[1..][i - 1];
      rest
  }

  /** The registry entry an event contributes: a start tag whose displayed
      name contains `wsdl:operation`, carrying a `name` attribute, with an
      `impl` namespace binding in scope. Anything else contributes none. */
  function Entry(ev: XmlEvent): Option<(string, Operation)> {
    if ev.StartElement? && Contains(QNameText(ev.name), "wsdl:operation") then
      match FindNameAttribute(ev.attributes)
      case Some(a) =>
        if "impl" in ev.namespace then Some((a.value, Operation(ev.namespace["impl"]))) else None
      case None => None
    else None
  }

  /** One event's effect on the map: insert (overwriting) its entry, if any. */
  function Step(operations: map<string, Operation>, ev: XmlEvent): map<string, Operation> {
    match Entry(ev)
    case None => operations
    case Some(entry) => operations[entry.0 := entry.1]
  }

  /** The scan from a given map: events in order up to the first parse error. */
  function Collect(operations: map<string, Operation>, events: seq<XmlEvent>): map<string, Operation>
    decreases |events|
  {
    if events == [] || events[0].Malformed? then operations
    else Collect(Step(operations, events[0]), events[1..])
  }

  /** The operations a service description yields. */
  function Registry(events: seq<XmlEvent>): map<string, Operation> {
    Collect(map[], events)
  }

  /** `fetch`: a failed GET is returned as is; otherwise the events of the
      body are scanned, whatever the response status. */
  method Fetch(get: Result<HttpResponse, HttpError>, tokenize: string -> seq<XmlEvent>)
    returns (r: Result<Wsdl, HttpError>)
    ensures get.Err? ==> r == Err(get.error)
    ensures get.Ok? ==> r == Ok(Wsdl(Registry(tokenize(get.value.body))))
  {
    if get.Err? {
      return Err(get.error);
    }
    var events := tokenize(get.value.body);
    var operations: map<string, Operation> := map[];
    for i := 0 to |events|
      invariant Collect(operations, events[i..]) == Registry(events)
    {
      match events[i] {
        case StartElement(name, attributes, namespace) =>
          if Contains(QNameText(name), "wsdl:operation") {
            var nameAttribute := FindNameAttribute(attributes);
            if nameAttribute.Some? && "impl" in namespace {
              operations := operations[nameAttribute.value.value := Operation(namespace["impl"])];
            }
          }
        case Malformed(_) =>
          break;
        case OtherEvent =>
      }
      assert events[i..][1..] == events[i + 1..];
    }
    return Ok(Wsdl(operations));
  }

  // ---------------------------------------------------------------------
  // What the registry holds

  /** The number of events scanned: everything before the first parse error. */
  function StopIndex(events: seq<XmlEvent>): (n: nat)
    ensures n <= |events|
    ensures forall j :: 0 <= j < n ==> !events[j].Malformed?
    ensures n < |events| ==> events[n].Malformed?
    decreases |events|
  {
    if events == [] || events[0].Malformed? then 0
    else
      var n := StopIndex(events[1..]);
      assert forall j :: 1 <= j <= n ==> events[j] == events[1..][j - 1];
      1 + n
  }

  /** The operation of the last event naming `key`, searching from the end:
      a reference for "the last occurrence wins". */
  function LastEntry(events: seq<XmlEvent>, key: string): Option<Operation>
    decreases |events|
  {
    if events == [] then None
    else
      var last := Entry(events[|events| - 1]);
      if last.Some? && last.value.0 == key then Some(last.value.1)
      else LastEntry(events[..|events| - 1], key)
  }

  function Lookup(operations: map<string, Operation>, key: string): Option<Operation> {
    if key in operations then Some(operations[key]) else None
  }

  /** An event in front changes the last entry only when nothing later names
      the same key. */
  lemma {:induction false} LastEntryCons(ev: XmlEvent, tail: seq<XmlEvent>, key: string)
    ensures LastEntry([ev] + tail, key) ==
      if LastEntry(tail, key).Some? then LastEntry(tail, key)
      else if Entry(ev).Some? && Entry(ev).value.0 == key then Some(Entry(ev).value.1)
      else None
    decreases |tail|
  {
    var s := [ev] + tail;
    if tail == [] {
      assert s == [ev];
      assert s[..0] == [];
    } else {
      assert s[|s| - 1] == tail[|tail| - 1];
      assert s[..|s| - 1] == [ev] + tail[..|tail| - 1];
      LastEntryCons(ev, tail[..|tail| - 1], key);
    }
  }

  lemma {:induction false} CollectIsLastEntry(operations: map<string, Operation>, events: seq<XmlEvent>, key: string)
    ensures Lookup(Collect(operations, events), key) ==
      if LastEntry(events[..StopIndex(events)], key).Some? then LastEntry(events[..StopIndex(events)], key)
      else Lookup(operations, key)
    decreases |events|
  {
    if events == [] || events[0].Malformed? {
      assert events[..StopIndex(events)] == [];
    } else {
      var tail := events[1..];
      CollectIsLastEntry(Step(operations, events[0]), tail, key);
      assert events[..StopIndex(events)] == [events[0]] + tail[..StopIndex(tail)];
      LastEntryCons(events[0], tail[..StopIndex(tail)], key);
    }
  }

  /** The registry maps a name to the endpoint of the LAST qualifying event
      with that name before the first parse error, and holds no other name. */
  lemma RegistryIsLastEntry(events: seq<XmlEvent>, key: string)
    ensures Lookup(Registry(events), key) == LastEntry(events[..StopIndex(events)], key)
  {
    CollectIsLastEntry(map[], events, key);
  }

  /** A parse error ends the scan: what came before is kept, nothing after
      it is read. */
  lemma {:induction false} CollectStopsAtMalformed(
    operations: map<string, Operation>, before: seq<XmlEvent>, message: string, after: seq<XmlEvent>)
    ensures Collect(operations, before + [Malformed(message)] + after) == Collect(operations, before)
    decreases |before|
  {
    var all := before + [Malformed(message)] + after;
    if before == [] {
      assert all[0] == Malformed(message);
    } else if !before[0].Malformed? {
      assert all[0] == before[0];
      assert all[1..] == before[1..] + [Malformed(message)] + after;
      CollectStopsAtMalformed(Step(operations, before[0]), before[1..], message, after);
    } else {
      assert all[0] == before[0];
    }
  }

  lemma RegistryStopsAtMalformed(before: seq<XmlEvent>, message: string, after: seq<XmlEvent>)
    ensures Registry(before + [Malformed(message)] + after) == Registry(before)
  {
    CollectStopsAtMalformed(map[], before, message, after);
  }

  /** An event that contributes no entry and is not a parse error (a
      non-start event, a start tag that is not an operation, an operation
      without `name` or without the `impl` binding) leaves the scan as if
      it were absent. */
  lemma {:induction false} CollectSkipsInert(
    operations: map<string, Operation>, before: seq<XmlEvent>, ev: XmlEvent, after: seq<XmlEvent>)
    requires Entry(ev).None? && !ev.Malformed?
    ensures Collect(operations, before + [ev] + after) == Collect(operations, before + after)
    decreases |before|
  {
    var with := before + [ev] + after;
    var without := before + after;
    if before == [] {
      assert with[0] == ev && with[1..] == after && without == after;
    } else {
      assert with[0] == before[0] && without[0] == before[0];
      if !before[0].Malformed? {
        assert with[1..] == before[1..] + [ev] + after;
        assert without[1..] == before[1..] + after;
        CollectSkipsInert(Step(operations, before[0]), before[1..], ev, after);
      }
    }
  }

  lemma RegistrySkipsInert(before: seq<XmlEvent>, ev: XmlEvent, after: seq<XmlEvent>)
    requires Entry(ev).None? && !ev.Malformed?
    ensures Registry(before + [ev] + after) == Registry(before + after)
  {
    CollectSkipsInert(map[], before, ev, after);
  }

  /** Only `wsdl:operation` start tags can contribute, and only when both the
      `name` attribute and the `impl` binding are present; the key is the
      first `name` attribute's value and the URL the `impl` namespace. */
  lemma EntryMeaning(ev: XmlEvent)
    ensures Entry(ev).Some? <==>
      && ev.StartElement?
      && Contains(QNameText(ev.name), "wsdl:operation")
      && (exists i :: 0 <= i < |ev.attributes| && QNameText(ev.attributes[i].name) == "name")
      && "impl" in ev.namespace
    ensures Entry(ev).Some? ==>
      Entry(ev).value == (FindNameAttribute(ev.attributes).value.value, Operation(ev.namespace["impl"]))
  {
  }
}
