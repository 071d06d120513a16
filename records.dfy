/** The records every script passes around: Python dictionaries from field
    names to text, and the keyed read on them. */
module Records {
  import opened Outcomes

  /** A world row, a route, a tiddler, or any record the converter builds. */
  type Record = map<string, string>

  /** Python's `d[key]`: the value, or a `KeyError` naming the key. */
  function Get(m: Record, key: string): (r: Result<string>)
    ensures r.Ok? <==> key in m
    ensures r.Ok? ==> r.value == m[key]
    ensures r.Err? ==> r.error == KeyError(key)
  {
    if key in m then Ok(m[key]) else Err(KeyError(key))
  }
}
