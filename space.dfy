/** The `Space` record of src/space.rs: a plain value, filled by the
    transform layer and by `Session.GetSpace`. */
module Space {
  import opened Wrappers
  import opened IntParse

  datatype Space = Space(
    key: string,
    name: string,
    spaceGroup: Option<string>,
    spaceType: string,
    url: string,
    homePage: U64,
    description: Option<string>)
}
