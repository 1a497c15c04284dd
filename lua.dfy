/**
 * The gopher-lua values the script bridge produces and consumes, as data. A
 * table has an array part (positions 1, 2, ...) and a part keyed by strings;
 * the string-keyed part is kept as its list of fields in the order ForEach
 * visits them, which gopher-lua leaves to Go's map order: the list is one
 * arbitrary such order. Keys that are neither array positions nor strings are
 * not part of this model.
 */
module LuaValues {

  datatype LValue =
    | LNil
    | LBool(b: bool)
    | LNumber(n: real)
    | LString(s: string)
    | LTable(t: Table)

  datatype Field = Field(key: string, val: LValue)

  datatype Table = Table(arr: seq<LValue>, hash: seq<Field>)

  /** One (key, value) pair handed to a ForEach callback. */
  datatype Pair = Pair(key: LValue, val: LValue)

  const EmptyTable := Table([], [])

  /** How Lua prints a number (LNumber.String). Not modelled. */
  const NumberText: real -> string

  /** lua.LVAsString: strings as they are, numbers printed, everything else "". */
  function AsString(v: LValue): (s: string)
    ensures v.LString? ==> s == v.s
    ensures !v.LString? && !v.LNumber? ==> s == ""
  {
    match v
    case LString(s) => s
    case LNumber(n) => NumberText(n)
    case _ => ""
  }

  /** The value stored under a string key, LNil when there is none. */
  function RawGetString(t: Table, key: string): (v: LValue)
    ensures v != LNil ==> Field(key, v) in t.hash
    ensures (exists i :: 0 <= i < |t.hash| && t.hash[i].key == key && t.hash[i].val != LNil) ==> v != LNil
    decreases |t.hash|
  {
    if t.hash == [] then LNil
    else if t.hash[0].key == key && t.hash[0].val != LNil then t.hash[0].val
    else RawGetString(Table(t.arr, t.hash[1..]), key)
  }

  /** The pairs of the array part from position `first`, nil slots skipped. */
  function ArrayPairs(arr: seq<LValue>, first: nat): (ps: seq<Pair>)
    ensures |ps| <= |arr|
    ensures forall p :: p in ps ==> p.val != LNil && p.key.LNumber?
    decreases |arr|
  {
    if arr == [] then []
    else (if arr[0] == LNil then [] else [Pair(LNumber(first as real), arr[0])]) + ArrayPairs(arr[1..], first + 1)
  }

  function HashPairs(hash: seq<Field>): (ps: seq<Pair>)
    ensures |ps| <= |hash|
    ensures forall p :: p in ps ==> p.val != LNil && p.key.LString?
    decreases |hash|
  {
    if hash == [] then []
    else (if hash[0].val == LNil then [] else [Pair(LString(hash[0].key), hash[0].val)]) + HashPairs(hash[1..])
  }

  /** What LTable.ForEach hands its callback, in order: the array part, then the string keys. */
  function Pairs(t: Table): (ps: seq<Pair>)
    ensures forall p :: p in ps ==> p.val != LNil
  {
    ArrayPairs(t.arr, 1) + HashPairs(t.hash)
  }

  /** An array part with no nil slots yields one pair per slot. */
  lemma {:induction false} ArrayPairsCount(arr: seq<LValue>, first: nat)
    requires forall i :: 0 <= i < |arr| ==> arr[i] != LNil
    ensures |ArrayPairs(arr, first)| == |arr|
    decreases |arr|
  {
    if arr != [] {
      ArrayPairsCount(arr[1..], first + 1);
    }
  }

  /** A string-keyed part with no nil values yields one pair per field. */
  lemma {:induction false} HashPairsCount(hash: seq<Field>)
    requires forall i :: 0 <= i < |hash| ==> hash[i].val != LNil
    ensures |HashPairs(hash)| == |hash|
    decreases |hash|
  {
    if hash != [] {
      HashPairsCount(hash[1..]);
    }
  }
}
