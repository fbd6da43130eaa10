/** Selection state shared by the interactive slides. */
module Selection {
  import opened Options

  /** The `"all" | number` state of the pie slides: the whole market, or one slice. */
  datatype Active = All | At(idx: int)

  /** `cur === i ? null : i`: clicking the open item closes it, clicking any other opens that
      one instead, so at most one item is ever open. */
  function Toggled<T(==)>(cur: Option<T>, i: T): (r: Option<T>)
    ensures r == None <==> cur == Some(i)
    ensures r != None ==> r == Some(i)
  {
    if cur == Some(i) then None else Some(i)
  }
}
