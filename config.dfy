/**
 * `get_value`: the value of a key in the first top-level section of a
 * loaded JSON configuration that is itself an object holding the key.
 */
module Config {
  /**
   * A JSON value as `json.load` gives it.  An object keeps its entries in
   * their order; JSON `null` loads as Python's `None`, the same value
   * `get_value` returns for a missing key.
   */
  datatype Value =
    | Object(entries: seq<(string, Value)>)
    | Array(items: seq<Value>)
    | Str(text: string)
    | Number(x: real)
    | Bool(b: bool)
    | Null

  /** `key in d` for an object's entries. */
  predicate Holds(entries: seq<(string, Value)>, key: string)
  {
    exists i :: 0 <= i < |entries| && entries[i].0 == key
  }

  /** `d[key]`: the value of the first entry with that key (a loaded object has one). */
  function Lookup(entries: seq<(string, Value)>, key: string): (r: Value)
    requires Holds(entries, key)
    ensures exists i :: 0 <= i < |entries| && entries[i].0 == key && r == entries[i].1
                        && forall j :: 0 <= j < i ==> entries[j].0 != key
  {
    if entries[0].0 == key then entries[0].1
    else
      assert Holds(entries[1..], key) by {
        var i :| 0 <= i < |entries| && entries[i].0 == key;
        assert entries[1..][i - 1].0 == key;
      }
      Lookup(entries[1..], key)
  }

  /** No key occurs twice among the entries, as in a dictionary loaded by `json.load`. */
  predicate UniqueKeys(entries: seq<(string, Value)>)
  {
    forall i, j :: 0 <= i < j < |entries| ==> entries[i].0 != entries[j].0
  }

  /**
   * With unique keys, `Lookup` gives the value of the one entry holding the
   * key, whichever of first or last a dictionary would keep.
   */
  lemma LookupUnique(entries: seq<(string, Value)>, key: string, i: nat)
    requires UniqueKeys(entries) && i < |entries| && entries[i].0 == key
    ensures Holds(entries, key) && Lookup(entries, key) == entries[i].1
  {
    var r := Lookup(entries, key);
    var k :| 0 <= k < |entries| && entries[k].0 == key && r == entries[k].1
             && forall j :: 0 <= j < k ==> entries[j].0 != key;
    assert k == i;
  }

  /** A top-level value that is an object holding `key`. */
  predicate Holder(v: Value, key: string)
  {
    v.Object? && Holds(v.entries, key)
  }

  /**
   * `get_value(config, key)`: the top-level values in order, returning the
   * key's value from the first that is an object holding it; `None` when
   * there is none.
   */
  function GetValue(config: seq<(string, Value)>, key: string): (r: Value)
  {
    if |config| == 0 then Null
    else if Holder(config[0].1, key) then Lookup(config[0].1.entries, key)
    else GetValue(config[1..], key)
  }

  /**
   * The result is the key's value in the first holder among the top-level
   * values; with no holder it is `None`.
   */
  lemma {:induction false} GetValueFirstHolder(config: seq<(string, Value)>, key: string)
    ensures (forall i :: 0 <= i < |config| ==> !Holder(config[i].1, key)) ==> GetValue(config, key) == Null
    ensures forall i :: 0 <= i < |config| && Holder(config[i].1, key)
                        && (forall j :: 0 <= j < i ==> !Holder(config[j].1, key)) ==>
                          GetValue(config, key) == Lookup(config[i].1.entries, key)
  {
    if |config| > 0 {
      GetValueFirstHolder(config[1..], key);
      forall i | 0 <= i < |config| && Holder(config[i].1, key) && (forall j :: 0 <= j < i ==> !Holder(config[j].1, key))
        ensures GetValue(config, key) == Lookup(config[i].1.entries, key)
      {
        if i > 0 {
          assert config[1..][i - 1] == config[i];
          assert forall j :: 0 <= j < i - 1 ==> config[1..][j] == config[j + 1];
        }
      }
      if forall i :: 0 <= i < |config| ==> !Holder(config[i].1, key) {
        assert forall i :: 0 <= i < |config| - 1 ==> config[1..][i] == config[i + 1];
      }
    }
  }

  /**
   * Only objects are searched: inserting a top-level value that is not an
   * object, anywhere, does not change the result.
   */
  lemma {:induction false} GetValueSkipsNonObjects(pre: seq<(string, Value)>, name: string, v: Value, post: seq<(string, Value)>, key: string)
    requires !v.Object?
    ensures GetValue(pre + [(name, v)] + post, key) == GetValue(pre + post, key)
  {
    if |pre| == 0 {
      assert pre + [(name, v)] + post == [(name, v)] + post;
      assert ([(name, v)] + post)[1..] == post;
      assert pre + post == post;
    } else {
      GetValueSkipsNonObjects(pre[1..], name, v, post, key);
      assert (pre + [(name, v)] + post)[1..] == pre[1..] + [(name, v)] + post;
      assert (pre + post)[1..] == pre[1..] + post;
    }
  }

  /**
   * The search is one level deep: a key that only names a top-level
   * section is not found, nor is a key that only sits one object further
   * down.
   */
  lemma OneLevelOnly()
    ensures GetValue([("seed", Number(3.0))], "seed") == Null
    ensures GetValue([("simulation", Object([("physics", Object([("v0", Number(1.0))]))]))], "v0") == Null
    ensures GetValue([("simulation", Object([("seed", Number(3.0))]))], "seed") == Number(3.0)
  {
    var sim := Object([("physics", Object([("v0", Number(1.0))]))]);
    assert !Holds(sim.entries, "v0") by {
      assert sim.entries[0].0 == "physics";
      assert "physics" != "v0";
    }
    var sim2 := Object([("seed", Number(3.0))]);
    assert sim2.entries[0].0 == "seed";
    assert Holder(sim2, "seed");
  }
}
