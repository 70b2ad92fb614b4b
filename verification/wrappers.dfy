/** A value that may be absent. The map routine has four such values: the marker list, which
    defaults to no markers; a marker's `label` key; the size `Image.open` reads from a response
    body, absent when it cannot identify the body; and a URL read back as a tile. */
module Wrappers {

  datatype Option<+T> = None | Some(value: T) {

    /** The marker list's default: the held value, or `fallback` when there is none. */
    function GetOr(fallback: T): T {
      if Some? then value else fallback
    }
  }
}
