/**
 * `process_book`, the same in all three programs: a record that is not a
 * dictionary is returned as it is; a dictionary gets an empty string under
 * each of the five required keys it lacks, and an availability marker
 * chosen by a coin.
 */
module Books {
  import opened Json

  /** The keys every processed record carries, in the order they are filled. */
  const Required: seq<string> := ["title", "author", "isbn", "genre", "reason"]

  const RequiredKeys: set<string> := set k | k in Required

  const StoreKey := "is_in_store"

  /** The two availability markers, "not in store" and "in store". */
  const Missing := "\U{274C}"
  const InStore := "\U{2705}"

  /** `random.random() < 0.25` is the coin: true means not in store. */
  function Marker(coin: bool): (m: string)
    ensures m == Missing || m == InStore
  {
    if coin then Missing else InStore
  }

  /** The record's entries with the absent required keys set to `""`. */
  function Filled(m: map<string, Value>): map<string, Value> {
    map k | k in m.Keys + RequiredKeys :: if k in m then m[k] else Str("")
  }

  /** What `process_book` makes of a record, given the coin. */
  function Processed(v: Value, coin: bool): Value {
    match v
    case Obj(m) => Obj(Filled(m)[StoreKey := Str(Marker(coin))])
    case _ => v
  }

  /** `process_book(item)`: the loop over the required keys fills the
      missing ones, then the marker is set. */
  method ProcessBook(item: Value, coin: bool) returns (r: Value)
    ensures r == Processed(item, coin)
  {
    if !item.Obj? {
      return item;
    }
    var fields := item.fields;
    for i := 0 to |Required|
      invariant fields.Keys == item.fields.Keys + set k | k in Required[..i]
      invariant forall k :: k in item.fields ==> fields[k] == item.fields[k]
      invariant forall k :: k in fields && k !in item.fields ==> fields[k] == Str("")
    {
      if Required[i] !in fields {
        fields := fields[Required[i] := Str("")];
      }
    }
    assert Required[..|Required|] == Required;
    FilledUnique(item.fields, fields);
    fields := fields[StoreKey := Str(Marker(coin))];
    r := Obj(fields);
  }

  /** Filled is the only map with its keys that keeps the record's
      entries and holds `""` under the keys it adds. */
  lemma FilledUnique(m: map<string, Value>, f: map<string, Value>)
    requires f.Keys == m.Keys + RequiredKeys
    requires forall k :: k in m ==> f[k] == m[k]
    requires forall k :: k in f && k !in m ==> f[k] == Str("")
    ensures f == Filled(m)
  {
  }

  /** A record that is not a dictionary comes back unchanged; a dictionary
      comes back a dictionary. */
  lemma ProcessedKind(v: Value, coin: bool)
    ensures !v.Obj? ==> Processed(v, coin) == v
    ensures v.Obj? <==> Processed(v, coin).Obj?
  {
  }

  /** A processed dictionary holds the five keys and the marker; keys it
      had keep their values (bar the marker); the keys it lacked hold `""`;
      it gains no other key. */
  lemma ProcessedFields(m: map<string, Value>, coin: bool)
    ensures var p := Processed(Obj(m), coin).fields;
      && p.Keys == m.Keys + RequiredKeys + {StoreKey}
      && (forall k :: k in Required ==> k in p)
      && (forall k :: k in m && k != StoreKey ==> p[k] == m[k])
      && (forall k :: k in Required && k !in m ==> p[k] == Str(""))
      && p[StoreKey] == Str(Marker(coin))
      && (p[StoreKey] == Str(Missing) || p[StoreKey] == Str(InStore))
  {
  }

  /** Processing twice is processing once with the second coin: the
      required keys keep what the first pass gave them, and only the marker
      may change. */
  lemma ProcessedTwice(v: Value, c1: bool, c2: bool)
    ensures Processed(Processed(v, c1), c2) == Processed(v, c2)
  {
    if v.Obj? {
      var m := v.fields;
      var once := Filled(m)[StoreKey := Str(Marker(c1))];
      assert Filled(once)[StoreKey := Str(Marker(c2))] == Filled(m)[StoreKey := Str(Marker(c2))];
    }
  }

  /** The markers are told apart by the coin. */
  lemma MarkerDistinct()
    ensures Missing != InStore && Marker(true) != Marker(false)
  {
    assert Missing[0] != InStore[0];
  }

  /** The records processed in order, one `process_book` call each, the
      i-th with coin k + i. */
  function ProcessAll(vs: seq<Value>, k: nat, coins: nat -> bool): (r: seq<Value>)
    ensures |r| == |vs|
  {
    seq(|vs|, i requires 0 <= i < |vs| => Processed(vs[i], coins(k + i)))
  }

  lemma ProcessAllCons(vs: seq<Value>, k: nat, coins: nat -> bool)
    requires vs != []
    ensures ProcessAll(vs, k, coins) == [Processed(vs[0], coins(k))] + ProcessAll(vs[1..], k + 1, coins)
  {
    var r := ProcessAll(vs[1..], k + 1, coins);
    assert forall i :: 0 <= i < |r| ==> r[i] == Processed(vs[i + 1], coins(k + i + 1));
  }
}
