/**
 * Go values as the senders see them through package reflect: aggregation
 * results, plugin configuration and aggregator limits are `interface{}` trees
 * decoded from YAML or JSON. The reflect kinds the code switches on become
 * constructors. A Go map is kept as its list of entries in the order a `range`
 * over it (or `MapKeys`) visits them, which Go leaves unspecified: the list is
 * one arbitrary such order.
 */
module GoValues {
  import opened Wrappers

  /** One map entry or one struct field. */
  datatype Entry = Entry(key: string, val: Value)

  datatype Value =
    | Seq(items: seq<Value>)        // reflect.Slice / reflect.Array, other than []byte
    | Map(entries: seq<Entry>)      // reflect.Map with string keys, in iteration order
    | Struct(fields: seq<Entry>)    // reflect.Struct: field names in declaration order
    | Bytes(data: seq<bv8>)         // []byte
    | Num(n: real)                  // every int, uint and float kind
    | Str(s: string)                // reflect.String
    | Bool(b: bool)                 // reflect.Bool
    | Nil                           // a nil interface{}: reflect.ValueOf gives the zero Value
    | Other(kind: string)           // Ptr, Chan, Func, ...

  /** strconv.ParseFloat(s, 64): the number `s` spells, None when it spells none. Not modelled. */
  const ParseFloat: string -> Option<real>

  /** Go's string([]byte): every byte becomes one character of the string. */
  function ByteString(data: seq<bv8>): (s: string)
    ensures |s| == |data|
    ensures forall i :: 0 <= i < |data| ==> s[i] as int == data[i] as int
  {
    seq(|data|, i requires 0 <= i < |data| => data[i] as char)
  }

  /** One tag of an aggregation result. */
  datatype Tag = Tag(name: string, value: string)

  /**
   * common.AggregationResult: its tags (a Go map, so no name twice), in
   * iteration order, and its result.
   */
  datatype AggregationResult = AggregationResult(tags: seq<Tag>, result: Value)

  /** The tags as the map they come from; with no name twice, every tag is kept as it is. */
  function TagsByName(tags: seq<Tag>): (m: map<string, string>)
    ensures forall i :: 0 <= i < |tags| ==> tags[i].name in m
    ensures forall k :: k in m ==> exists i :: 0 <= i < |tags| && tags[i] == Tag(k, m[k])
    decreases |tags|
  {
    if tags == [] then map[]
    else
      var last := tags[|tags| - 1];
      TagsByName(tags[..|tags| - 1])[last.name := last.value]
  }
}
