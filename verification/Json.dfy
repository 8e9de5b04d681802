/** JSON values; an object keeps its entries in insertion order, as the source's dictionaries do. */
module Json {
  import opened Common

  datatype Json =
    | Null
    | Bool(b: bool)
    | Num(n: real)
    | Str(s: string)
    | Arr(items: seq<Json>)
    | Obj(entries: seq<Entry>)

  datatype Entry = Entry(key: string, value: Json)

  /** Dictionary lookup. */
  function Get(entries: seq<Entry>, key: string): Option<Json> {
    if entries == [] then None
    else if entries[0].key == key then Some(entries[0].value)
    else Get(entries[1..], key)
  }

  lemma {:induction false} GetIsEntry(entries: seq<Entry>, key: string)
    ensures Get(entries, key).Some? <==> exists k :: 0 <= k < |entries| && entries[k].key == key
    ensures Get(entries, key).Some? ==> Entry(key, Get(entries, key).value) in entries
  {
    if entries != [] {
      GetIsEntry(entries[1..], key);
      assert forall k :: 0 < k < |entries| ==> entries[k] == entries[1..][k - 1];
      if entries[0].key == key { assert entries[0] == Entry(key, entries[0].value); }
    }
  }
}
