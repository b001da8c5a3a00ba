/** The transform layer of src/transforms.rs: `from_element` for `Space`,
    `Page` and `PageSummary`. Each field is a one-segment `get_at_path`
    followed by a coercion, evaluated in the order the record literal lists
    them; the first failing field's error, converted into the library error,
    is the result. */
module Transforms {
  import opened Wrappers
  import opened Xml
  import opened Errors
  import opened Space
  import opened Pages

  /** `as_int`, `as_boolean` and `as_datetime`: coercions the page transform
      uses but whose definitions are not part of this model, taken as
      parameters. */
  datatype Coercions = Coercions(
    asInt: Element -> Result<int, XmlError>,
    asBoolean: Element -> Result<bool, XmlError>,
    asDatetime: Element -> Result<DateTime, XmlError>)

  /** `element.get_at_path(&[field]).and_then(coerce)`. */
  function FieldAt<T>(e: Element, field: string, coerce: Element -> Result<T, XmlError>): (r: Result<T, XmlError>)
    ensures ChildNamed(e, field).None? ==> r == Err(NotFoundAtPath([field]))
    ensures ChildNamed(e, field).Some? ==> r == coerce(ChildNamed(e, field).value)
  {
    AtSingleSegment(e, field);
    match AtPath(e, [field])
    case Err(x) => Err(x)
    case Ok(c) => coerce(c)
  }

  /** `get_at_path(..)?.text`: the raw text, no type check, absence allowed. */
  function TextOf(c: Element): Result<Option<string>, XmlError> {
    Ok(c.text)
  }

  function Failure<T>(r: Result<T, XmlError>): Option<XmlError> {
    if r.Err? then Some(r.error) else None
  }

  /** The left one when it is a failure, else the right one: chaining it
      over the fields gives the first failure in written order. */
  function OrElse(first: Option<XmlError>, later: Option<XmlError>): Option<XmlError> {
    if first.Some? then first else later
  }

  // ---------------------------------------------------------------------
  // Space

  const SpaceFields: seq<string> := ["description", "homePage", "key", "name", "name", "type", "url"]

  /** The first failing field of `Space::from_element`, in evaluation order. */
  function SpaceFirstFailure(e: Element): Option<XmlError> {
    OrElse(Failure(FieldAt(e, "description", TextOf)),
    OrElse(Failure(FieldAt(e, "homePage", AsLong)),
    OrElse(Failure(FieldAt(e, "key", AsString)),
    OrElse(Failure(FieldAt(e, "name", AsString)),
    OrElse(Failure(FieldAt(e, "name", TextOf)),
    OrElse(Failure(FieldAt(e, "type", AsString)),
           Failure(FieldAt(e, "url", AsString))))))))
  }

  /** `Space::from_element`. */
  function SpaceFromElement(e: Element): (r: Result<Space, Error>)
    ensures r.Err? <==> SpaceFirstFailure(e).Some?
    ensures r.Err? ==> r.error == FromXml(SpaceFirstFailure(e).value)
    ensures r.Ok? ==> r.value.spaceGroup == Some(r.value.name)
    ensures r.Ok? ==> ChildNamed(e, "homePage").Some? &&
                      AsLong(ChildNamed(e, "homePage").value) == Ok(r.value.homePage)
    ensures r.Ok? ==> ChildNamed(e, "key").Some? && AsString(ChildNamed(e, "key").value) == Ok(r.value.key)
    ensures r.Ok? ==> ChildNamed(e, "name").Some? && AsString(ChildNamed(e, "name").value) == Ok(r.value.name)
    ensures r.Ok? ==> ChildNamed(e, "type").Some? && AsString(ChildNamed(e, "type").value) == Ok(r.value.spaceType)
    ensures r.Ok? ==> ChildNamed(e, "url").Some? && AsString(ChildNamed(e, "url").value) == Ok(r.value.url)
    ensures r.Ok? ==> ChildNamed(e, "description").Some? &&
                      r.value.description == ChildNamed(e, "description").value.text
  {
    var description :- Lift(FieldAt(e, "description", TextOf));
    var homePage :- Lift(FieldAt(e, "homePage", AsLong));
    var key :- Lift(FieldAt(e, "key", AsString));
    var name :- Lift(FieldAt(e, "name", AsString));
    // This lookup repeats the one just made for `name`, so it cannot fail.
    match Lift(FieldAt(e, "name", TextOf))
    case Err(err) => Err(err)
    case Ok(spaceGroup) =>
      var spaceType :- Lift(FieldAt(e, "type", AsString));
      var url :- Lift(FieldAt(e, "url", AsString));
      Ok(Space(key, name, spaceGroup, spaceType, url, homePage, description))
  }

  /** A tree-path failure of the space transform always names one missing
      direct child, and only the six fields are ever looked up. */
  lemma SpaceNotFoundNamesMissingField(e: Element)
    requires SpaceFromElement(e).Err?
    requires SpaceFromElement(e).error.Rpc? && SpaceFromElement(e).error.rpc.XmlFailure?
    requires SpaceFromElement(e).error.rpc.xml.NotFoundAtPath?
    ensures var p := SpaceFromElement(e).error.rpc.xml.path;
      |p| == 1 && p[0] in SpaceFields && ChildNamed(e, p[0]).None?
  {
    var x := SpaceFirstFailure(e).value;
    assert x.NotFoundAtPath?;
    if Failure(FieldAt(e, "description", TextOf)).Some? {
      assert x == FieldAt(e, "description", TextOf).error;
    } else if Failure(FieldAt(e, "homePage", AsLong)).Some? {
      assert x == FieldAt(e, "homePage", AsLong).error;
    } else if Failure(FieldAt(e, "key", AsString)).Some? {
      assert x == FieldAt(e, "key", AsString).error;
    } else if Failure(FieldAt(e, "name", AsString)).Some? {
      assert x == FieldAt(e, "name", AsString).error;
    } else if Failure(FieldAt(e, "type", AsString)).Some? {
      assert x == FieldAt(e, "type", AsString).error;
    } else {
      assert x == FieldAt(e, "url", AsString).error;
    }
  }

  /** Each of the six looked-up children is required. */
  lemma SpaceNeedsAllChildren(e: Element, field: string)
    requires field in SpaceFields
    requires ChildNamed(e, field).None?
    ensures SpaceFromElement(e).Err?
  {
    if field == "description" {
      assert Failure(FieldAt(e, "description", TextOf)).Some?;
    } else if field == "homePage" {
      assert Failure(FieldAt(e, "homePage", AsLong)).Some?;
    } else if field == "key" {
      assert Failure(FieldAt(e, "key", AsString)).Some?;
    } else if field == "name" {
      assert Failure(FieldAt(e, "name", AsString)).Some?;
    } else if field == "type" {
      assert Failure(FieldAt(e, "type", AsString)).Some?;
    } else {
      assert Failure(FieldAt(e, "url", AsString)).Some?;
    }
  }

  // ---------------------------------------------------------------------
  // PageSummary

  /** The first failing field of `PageSummary::from_element`, in order. */
  function PageSummaryFirstFailure(e: Element): Option<XmlError> {
    OrElse(Failure(FieldAt(e, "id", AsLong)),
    OrElse(Failure(FieldAt(e, "space", AsString)),
    OrElse(Failure(FieldAt(e, "parentId", AsLong)),
    OrElse(Failure(FieldAt(e, "title", AsString)),
           Failure(FieldAt(e, "url", AsString))))))
  }

  /** `PageSummary::from_element`. */
  function PageSummaryFromElement(e: Element): (r: Result<PageSummary, Error>)
    ensures r.Err? <==> PageSummaryFirstFailure(e).Some?
    ensures r.Err? ==> r.error == FromXml(PageSummaryFirstFailure(e).value)
    ensures r.Ok? ==> ChildNamed(e, "id").Some? && ChildNamed(e, "parentId").Some?
    ensures r.Ok? ==> r.value.id == AsLong(ChildNamed(e, "id").value).value
    ensures r.Ok? ==> r.value.parentId == AsLong(ChildNamed(e, "parentId").value).value
    ensures r.Ok? ==> ChildNamed(e, "space").Some? && AsString(ChildNamed(e, "space").value) == Ok(r.value.space)
    ensures r.Ok? ==> ChildNamed(e, "title").Some? && AsString(ChildNamed(e, "title").value) == Ok(r.value.title)
    ensures r.Ok? ==> ChildNamed(e, "url").Some? && AsString(ChildNamed(e, "url").value) == Ok(r.value.url)
  {
    var id :- Lift(FieldAt(e, "id", AsLong));
    var space :- Lift(FieldAt(e, "space", AsString));
    var parentId :- Lift(FieldAt(e, "parentId", AsLong));
    var title :- Lift(FieldAt(e, "title", AsString));
    var url :- Lift(FieldAt(e, "url", AsString));
    Ok(PageSummary(id, space, parentId, title, url))
  }

  const PageSummaryFields: seq<string> := ["id", "space", "parentId", "title", "url"]

  /** Each of the five children is required. */
  lemma PageSummaryNeedsAllChildren(e: Element, field: string)
    requires field in PageSummaryFields
    requires ChildNamed(e, field).None?
    ensures PageSummaryFromElement(e).Err?
  {
    if field == "id" {
      assert Failure(FieldAt(e, "id", AsLong)).Some?;
    } else if field == "space" {
      assert Failure(FieldAt(e, "space", AsString)).Some?;
    } else if field == "parentId" {
      assert Failure(FieldAt(e, "parentId", AsLong)).Some?;
    } else if field == "title" {
      assert Failure(FieldAt(e, "title", AsString)).Some?;
    } else {
      assert Failure(FieldAt(e, "url", AsString)).Some?;
    }
  }

  // ---------------------------------------------------------------------
  // Page

  /** The first failing field of `Page::from_element`, in order. */
  function PageFirstFailure(e: Element, c: Coercions): Option<XmlError> {
    OrElse(Failure(FieldAt(e, "id", AsLong)),
    OrElse(Failure(FieldAt(e, "space", AsString)),
    OrElse(Failure(FieldAt(e, "parentId", AsLong)),
    OrElse(Failure(FieldAt(e, "title", AsString)),
    OrElse(Failure(FieldAt(e, "url", AsString)),
    OrElse(Failure(FieldAt(e, "version", c.asInt)),
    OrElse(Failure(FieldAt(e, "content", AsString)),
    OrElse(Failure(FieldAt(e, "created", c.asDatetime)),
    OrElse(Failure(FieldAt(e, "creator", AsString)),
    OrElse(Failure(FieldAt(e, "modified", c.asDatetime)),
    OrElse(Failure(FieldAt(e, "modifier", AsString)),
    OrElse(Failure(FieldAt(e, "homePage", c.asBoolean)),
    OrElse(Failure(FieldAt(e, "contentStatus", AsString)),
           Failure(FieldAt(e, "current", c.asBoolean)))))))))))))))
  }

  /** `Page::from_element`. */
  function PageFromElement(e: Element, c: Coercions): (r: Result<Page, Error>)
    ensures r.Ok? ==> ChildNamed(e, "version").Some? &&
                      c.asInt(ChildNamed(e, "version").value) == Ok(r.value.version)
    ensures r.Ok? ==> ChildNamed(e, "content").Some? &&
                      ChildNamed(e, "content").value.text == Some(r.value.content)
  {
    var id :- Lift(FieldAt(e, "id", AsLong));
    var space :- Lift(FieldAt(e, "space", AsString));
    var parentId :- Lift(FieldAt(e, "parentId", AsLong));
    var title :- Lift(FieldAt(e, "title", AsString));
    var url :- Lift(FieldAt(e, "url", AsString));
    var version :- Lift(FieldAt(e, "version", c.asInt));
    var content :- Lift(FieldAt(e, "content", AsString));
    var created :- Lift(FieldAt(e, "created", c.asDatetime));
    var creator :- Lift(FieldAt(e, "creator", AsString));
    var modified :- Lift(FieldAt(e, "modified", c.asDatetime));
    var modifier :- Lift(FieldAt(e, "modifier", AsString));
    var homePage :- Lift(FieldAt(e, "homePage", c.asBoolean));
    var contentStatus :- Lift(FieldAt(e, "contentStatus", AsString));
    var current :- Lift(FieldAt(e, "current", c.asBoolean));
    Ok(Page(id, space, parentId, title, url, version, content, created, creator,
            modified, modifier, homePage, contentStatus, current))
  }

  /** Fields are evaluated in the written order and the first failing one
      decides the error; the page is built exactly when none fails. */
  lemma PageFirstFailureWins(e: Element, c: Coercions)
    ensures PageFromElement(e, c).Err? <==> PageFirstFailure(e, c).Some?
    ensures PageFromElement(e, c).Err? ==>
      PageFromElement(e, c).error == FromXml(PageFirstFailure(e, c).value)
  {
    if Failure(FieldAt(e, "id", AsLong)).Some? {
      assert PageFromElement(e, c) == Err(FromXml(FieldAt(e, "id", AsLong).error));
    } else if Failure(FieldAt(e, "space", AsString)).Some? {
      assert PageFromElement(e, c) == Err(FromXml(FieldAt(e, "space", AsString).error));
    } else if Failure(FieldAt(e, "parentId", AsLong)).Some? {
      assert PageFromElement(e, c) == Err(FromXml(FieldAt(e, "parentId", AsLong).error));
    } else if Failure(FieldAt(e, "title", AsString)).Some? {
      assert PageFromElement(e, c) == Err(FromXml(FieldAt(e, "title", AsString).error));
    } else if Failure(FieldAt(e, "url", AsString)).Some? {
      assert PageFromElement(e, c) == Err(FromXml(FieldAt(e, "url", AsString).error));
    } else if Failure(FieldAt(e, "version", c.asInt)).Some? {
      assert PageFromElement(e, c) == Err(FromXml(FieldAt(e, "version", c.asInt).error));
    } else if Failure(FieldAt(e, "content", AsString)).Some? {
      assert PageFromElement(e, c) == Err(FromXml(FieldAt(e, "content", AsString).error));
    } else if Failure(FieldAt(e, "created", c.asDatetime)).Some? {
      assert PageFromElement(e, c) == Err(FromXml(FieldAt(e, "created", c.asDatetime).error));
    } else if Failure(FieldAt(e, "creator", AsString)).Some? {
      assert PageFromElement(e, c) == Err(FromXml(FieldAt(e, "creator", AsString).error));
    } else if Failure(FieldAt(e, "modified", c.asDatetime)).Some? {
      assert PageFromElement(e, c) == Err(FromXml(FieldAt(e, "modified", c.asDatetime).error));
    } else if Failure(FieldAt(e, "modifier", AsString)).Some? {
      assert PageFromElement(e, c) == Err(FromXml(FieldAt(e, "modifier", AsString).error));
    } else if Failure(FieldAt(e, "homePage", c.asBoolean)).Some? {
      assert PageFromElement(e, c) == Err(FromXml(FieldAt(e, "homePage", c.asBoolean).error));
    } else if Failure(FieldAt(e, "contentStatus", AsString)).Some? {
      assert PageFromElement(e, c) == Err(FromXml(FieldAt(e, "contentStatus", AsString).error));
    } else if Failure(FieldAt(e, "current", c.asBoolean)).Some? {
      assert PageFromElement(e, c) == Err(FromXml(FieldAt(e, "current", c.asBoolean).error));
    } else {
      assert PageFromElement(e, c).Ok?;
    }
  }

  /** A built page holds, field by field, what its child's coercion gave:
      `as_long` for the ids, `as_string` for the texts, and the page
      coercions for the version, the dates and the flags. */
  lemma PageFieldsFromChildren(e: Element, c: Coercions)
    requires PageFromElement(e, c).Ok?
    ensures var p := PageFromElement(e, c).value;
      && ChildNamed(e, "id").Some? && AsLong(ChildNamed(e, "id").value) == Ok(p.id)
      && ChildNamed(e, "space").Some? && AsString(ChildNamed(e, "space").value) == Ok(p.space)
      && ChildNamed(e, "parentId").Some? && AsLong(ChildNamed(e, "parentId").value) == Ok(p.parentId)
      && ChildNamed(e, "title").Some? && AsString(ChildNamed(e, "title").value) == Ok(p.title)
      && ChildNamed(e, "url").Some? && AsString(ChildNamed(e, "url").value) == Ok(p.url)
    ensures var p := PageFromElement(e, c).value;
      && ChildNamed(e, "content").Some? && AsString(ChildNamed(e, "content").value) == Ok(p.content)
      && ChildNamed(e, "created").Some? && c.asDatetime(ChildNamed(e, "created").value) == Ok(p.created)
      && ChildNamed(e, "creator").Some? && AsString(ChildNamed(e, "creator").value) == Ok(p.creator)
      && ChildNamed(e, "modified").Some? && c.asDatetime(ChildNamed(e, "modified").value) == Ok(p.modified)
    ensures var p := PageFromElement(e, c).value;
      && ChildNamed(e, "modifier").Some? && AsString(ChildNamed(e, "modifier").value) == Ok(p.modifier)
      && ChildNamed(e, "homePage").Some? && c.asBoolean(ChildNamed(e, "homePage").value) == Ok(p.homePage)
      && ChildNamed(e, "contentStatus").Some? && AsString(ChildNamed(e, "contentStatus").value) == Ok(p.contentStatus)
      && ChildNamed(e, "current").Some? && c.asBoolean(ChildNamed(e, "current").value) == Ok(p.current)
  {
    PageFirstFailureWins(e, c);
    var id := FieldAt(e, "id", AsLong);
    var space := FieldAt(e, "space", AsString);
    var parentId := FieldAt(e, "parentId", AsLong);
    var title := FieldAt(e, "title", AsString);
    var url := FieldAt(e, "url", AsString);
    var version := FieldAt(e, "version", c.asInt);
    var content := FieldAt(e, "content", AsString);
    var created := FieldAt(e, "created", c.asDatetime);
    var creator := FieldAt(e, "creator", AsString);
    var modified := FieldAt(e, "modified", c.asDatetime);
    var modifier := FieldAt(e, "modifier", AsString);
    var homePage := FieldAt(e, "homePage", c.asBoolean);
    var contentStatus := FieldAt(e, "contentStatus", AsString);
    var current := FieldAt(e, "current", c.asBoolean);
    assert id.Ok? && space.Ok? && parentId.Ok? && title.Ok? && url.Ok? && version.Ok? && content.Ok?;
    assert created.Ok? && creator.Ok? && modified.Ok? && modifier.Ok? && homePage.Ok?;
    assert contentStatus.Ok? && current.Ok?;
    assert PageFromElement(e, c).value ==
      Page(id.value, space.value, parentId.value, title.value, url.value, version.value, content.value,
           created.value, creator.value, modified.value, modifier.value, homePage.value,
           contentStatus.value, current.value);
  }

  /** Every one of the fourteen children is required: if any is missing the
      transform fails, whatever the coercions do. */
  lemma PageNeedsAllChildren(e: Element, c: Coercions, field: string)
    requires field in PageFieldNames
    requires ChildNamed(e, field).None?
    ensures PageFromElement(e, c).Err?
  {
    MissingPageChildFails(e, c, field);
    PageFirstFailureWins(e, c);
  }

  lemma MissingPageChildFails(e: Element, c: Coercions, field: string)
    requires field in PageFieldNames
    requires ChildNamed(e, field).None?
    ensures PageFirstFailure(e, c).Some?
  {
    if field == "id" {
      assert Failure(FieldAt(e, "id", AsLong)).Some?;
    } else if field == "space" {
      assert Failure(FieldAt(e, "space", AsString)).Some?;
    } else if field == "parentId" {
      assert Failure(FieldAt(e, "parentId", AsLong)).Some?;
    } else if field == "title" {
      assert Failure(FieldAt(e, "title", AsString)).Some?;
    } else if field == "url" {
      assert Failure(FieldAt(e, "url", AsString)).Some?;
    } else if field == "version" {
      assert Failure(FieldAt(e, "version", c.asInt)).Some?;
    } else if field == "content" {
      assert Failure(FieldAt(e, "content", AsString)).Some?;
    } else if field == "created" {
      assert Failure(FieldAt(e, "created", c.asDatetime)).Some?;
    } else if field == "creator" {
      assert Failure(FieldAt(e, "creator", AsString)).Some?;
    } else if field == "modified" {
      assert Failure(FieldAt(e, "modified", c.asDatetime)).Some?;
    } else if field == "modifier" {
      assert Failure(FieldAt(e, "modifier", AsString)).Some?;
    } else if field == "homePage" {
      assert Failure(FieldAt(e, "homePage", c.asBoolean)).Some?;
    } else if field == "contentStatus" {
      assert Failure(FieldAt(e, "contentStatus", AsString)).Some?;
    } else {
      assert field == "current";
      assert Failure(FieldAt(e, "current", c.asBoolean)).Some?;
    }
  }

  const PageFieldNames: seq<string> :=
    ["id", "space", "parentId", "title", "url", "version", "content", "created",
     "creator", "modified", "modifier", "homePage", "contentStatus", "current"]
}
