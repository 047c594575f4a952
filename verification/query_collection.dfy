/**
 * The name/value collection that holds the report-server query parameters: an ordered
 * list of entries whose keys are compared ignoring case, where assigning a value to a key
 * replaces the value of the entry already holding that key, or appends a new entry.
 */
module QueryCollections {
  import opened Wrappers

  datatype Entry = Entry(Key: string, Value: string)

  function ToUpperAscii(c: char): char {
    if 'a' <= c <= 'z' then (c as int - 32) as char else c
  }

  /** The key as compared: upper-cased character by character. */
  function Fold(s: string): (r: string)
    ensures |r| == |s|
  {
    seq(|s|, i requires 0 <= i < |s| => ToUpperAscii(s[i]))
  }

  /** Case-insensitive key equality. */
  predicate SameKey(a: string, b: string) {
    Fold(a) == Fold(b)
  }

  /** The position of the first entry whose key matches, if any. */
  function IndexOfKey(c: seq<Entry>, key: string): (r: Option<nat>)
    ensures r.Some? ==> r.value < |c| && SameKey(c[r.value].Key, key)
    ensures r.Some? ==> forall j :: 0 <= j < r.value ==> !SameKey(c[j].Key, key)
    ensures r.None? <==> forall j :: 0 <= j < |c| ==> !SameKey(c[j].Key, key)
  {
    if c == [] then None
    else if SameKey(c[0].Key, key) then Some(0)
    else match IndexOfKey(c[1..], key)
      case None => None
      case Some(i) => Some(i + 1)
  }

  /** The value held under a key, read as the collection's indexer reads it. */
  function Get(c: seq<Entry>, key: string): Option<string> {
    match IndexOfKey(c, key)
    case None => None
    case Some(i) => Some(c[i].Value)
  }

  /** No two entries hold the same key. */
  predicate DistinctKeys(c: seq<Entry>) {
    forall i, j :: 0 <= i < j < |c| ==> !SameKey(c[i].Key, c[j].Key)
  }

  /**
   * The indexer's setter: the entry holding the key keeps its spelling and position and
   * takes the new value; without one, an entry is appended. Afterwards the key reads as the
   * new value, every other key reads as before, and keys stay distinct.
   */
  function Set(c: seq<Entry>, key: string, value: string): (r: seq<Entry>)
    ensures Get(r, key) == Some(value)
    ensures forall k :: !SameKey(k, key) ==> Get(r, k) == Get(c, k)
    ensures DistinctKeys(c) ==> DistinctKeys(r)
    ensures |c| <= |r| <= |c| + 1
    ensures forall i :: 0 <= i < |c| ==> r[i].Key == c[i].Key
    ensures |r| == |c| + 1 ==> r[|c|].Key == key && IndexOfKey(c, key).None?
  {
    match IndexOfKey(c, key)
    case Some(i) => ReplaceKeepsOthers(c, i, key, value); c[i := Entry(c[i].Key, value)]
    case None => AppendKeepsOthers(c, key, value); c + [Entry(key, value)]
  }

  /** The first matching position is the one position that matches with no match before it. */
  lemma IndexOfKeyIs(c: seq<Entry>, key: string, m: nat)
    requires m < |c| && SameKey(c[m].Key, key)
    requires forall j :: 0 <= j < m ==> !SameKey(c[j].Key, key)
    ensures IndexOfKey(c, key) == Some(m)
  {
  }

  lemma ReplaceKeepsOthers(c: seq<Entry>, i: nat, key: string, value: string)
    requires IndexOfKey(c, key) == Some(i)
    ensures Get(c[i := Entry(c[i].Key, value)], key) == Some(value)
    ensures forall k :: !SameKey(k, key) ==> Get(c[i := Entry(c[i].Key, value)], k) == Get(c, k)
  {
    var r := c[i := Entry(c[i].Key, value)];
    IndexOfKeyIs(r, key, i);
    forall k | !SameKey(k, key)
      ensures Get(r, k) == Get(c, k)
    {
      match IndexOfKey(c, k)
      case None =>
      case Some(m) => IndexOfKeyIs(r, k, m);
    }
  }

  lemma AppendKeepsOthers(c: seq<Entry>, key: string, value: string)
    requires IndexOfKey(c, key).None?
    ensures Get(c + [Entry(key, value)], key) == Some(value)
    ensures forall k :: !SameKey(k, key) ==> Get(c + [Entry(key, value)], k) == Get(c, k)
  {
    var r := c + [Entry(key, value)];
    IndexOfKeyIs(r, key, |c|);
    forall k | !SameKey(k, key)
      ensures Get(r, k) == Get(c, k)
    {
      match IndexOfKey(c, k)
      case None =>
      case Some(m) => IndexOfKeyIs(r, k, m);
    }
  }
}
