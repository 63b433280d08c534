/** incrementalMap.ts: a map whose entries are kept per snapshot.  The
    source stores every entry in one JS Map under the string
    `${snapshot}:${key}`; the class below keeps that string-keyed map and,
    beside it, a ghost map keyed by the (snapshot, key) pair it stands for. */
module Incremental {
  import opened Results
  import opened Text
  import opened Values

  /** The string an entry of `key` under `snapshot` is stored under. */
  function HistoryKey(snapshot: int, key: string): string
  {
    IntToString(snapshot) + ":" + key
  }

  /** The text of an integer holds no ':'. */
  lemma NoColon(n: int)
    ensures ':' !in IntToString(n)
  {
    var s := IntToString(n);
    assert forall i :: 0 <= i < |s| ==> s[i] != ':';
  }

  /** In `a:b` with no ':' in `a`, the first ':' sits right after `a`. */
  lemma FirstColon(a: string, b: string)
    requires ':' !in a
    ensures forall i :: 0 <= i < |a| ==> (a + ":" + b)[i] != ':'
    ensures (a + ":" + b)[|a|] == ':'
  {
    forall i | 0 <= i < |a|
      ensures (a + ":" + b)[i] != ':'
    {
      assert (a + ":" + b)[i] == a[i];
    }
  }

  /** Cutting at the first ':' takes `a:b` back apart. */
  lemma ColonSplit(a: string, b: string, c: string, d: string)
    requires ':' !in a && ':' !in c
    requires a + ":" + b == c + ":" + d
    ensures a == c && b == d
  {
    var s := a + ":" + b;
    FirstColon(a, b);
    FirstColon(c, d);
    assert |a| == |c|;
    assert a == s[..|a|] && c == s[..|c|];
    assert b == s[|a| + 1..] && d == s[|c| + 1..];
  }

  /** Different (snapshot, key) pairs are stored under different strings. */
  lemma HistoryKeyInjective(s1: int, k1: string, s2: int, k2: string)
    ensures HistoryKey(s1, k1) == HistoryKey(s2, k2) <==> s1 == s2 && k1 == k2
  {
    if HistoryKey(s1, k1) == HistoryKey(s2, k2) {
      NoColon(s1);
      NoColon(s2);
      ColonSplit(IntToString(s1), k1, IntToString(s2), k2);
      IntToStringInjective(s1, s2);
    }
  }

  /** map.get(`${snapshot}:${key}`): undefined when nothing is stored there. */
  function Lookup<V>(entries: map<string, V>, snapshot: int, key: string): Option<V>
  {
    var hk := HistoryKey(snapshot, key);
    if hk in entries then Some(entries[hk]) else None
  }

  /** The entry of a map keyed by (snapshot, key) pairs. */
  function Find<V>(history: map<(int, string), V>, snapshot: int, key: string): Option<V>
  {
    if (snapshot, key) in history then Some(history[(snapshot, key)]) else None
  }

  /** set(k, v) then get(k) under the same snapshot gives v; under any other
      (snapshot, key) pair get answers as before the set. */
  lemma SetThenGet<V>(entries: map<string, V>, snapshot: int, key: string, value: V, snapshot': int, key': string)
    ensures Lookup(entries[HistoryKey(snapshot, key) := value], snapshot', key')
         == if snapshot' == snapshot && key' == key then Some(value) else Lookup(entries, snapshot', key')
  {
    HistoryKeyInjective(snapshot, key, snapshot', key');
  }

  class IncrementalMap<V> {
    var currentSnapshotKey: int
    /** The source's `map` field. */
    var entries: map<string, V>
    /** What `entries` stands for: the value set for each (snapshot, key). */
    ghost var history: map<(int, string), V>

    /** The string-keyed map answers every get as the pair-keyed history does. */
    ghost predicate Valid()
      reads this
    {
      forall snapshot, key {:trigger Lookup(entries, snapshot, key)} :: Lookup(entries, snapshot, key) == Find(history, snapshot, key)
    }

    /** A fresh map is at snapshot 0 with no entries. */
    constructor()
      ensures Valid()
      ensures currentSnapshotKey == 0 && entries == map[] && history == map[]
    {
      currentSnapshotKey := 0;
      entries := map[];
      history := map[];
    }

    /** get(key): the entry set for key under the current snapshot; earlier
        snapshots are not consulted. */
    method Get(key: string) returns (r: Option<V>)
      requires Valid()
      ensures r == Lookup(entries, currentSnapshotKey, key)
      ensures r == Find(history, currentSnapshotKey, key)
    {
      var historyKey := HistoryKey(currentSnapshotKey, key);
      r := if historyKey in entries then Some(entries[historyKey]) else None;
    }

    /** set(key, value): stores value for key under the current snapshot,
        replacing what was set there before. */
    method Set(key: string, value: V)
      requires Valid()
      modifies this
      ensures Valid()
      ensures currentSnapshotKey == old(currentSnapshotKey)
      ensures entries == old(entries)[HistoryKey(currentSnapshotKey, key) := value]
      ensures history == old(history)[(currentSnapshotKey, key) := value]
    {
      var historyKey := HistoryKey(currentSnapshotKey, key);
      var newEntries := entries[historyKey := value];
      ghost var newHistory := history[(currentSnapshotKey, key) := value];
      forall snapshot, key'
        ensures Lookup(newEntries, snapshot, key') == Find(newHistory, snapshot, key')
      {
        SetThenGet(entries, currentSnapshotKey, key, value, snapshot, key');
      }
      entries := newEntries;
      history := newHistory;
    }

    /** snapshot(key): moves to another snapshot; every stored entry stays. */
    method Snapshot(key: int)
      requires Valid()
      modifies this
      ensures Valid()
      ensures currentSnapshotKey == key
      ensures entries == old(entries) && history == old(history)
    {
      currentSnapshotKey := key;
    }
  }

  /** The history the call sequence at the end of incrementalMap.ts builds:
      two entries under snapshot 0, then two under snapshot 1. */
  ghost function FirstHistory(): map<(int, string), Value>
  {
    map[][(0, "name") := Str("John")][(0, "salary") := Num(Int(10))]
  }

  ghost function SecondHistory(): map<(int, string), Value>
  {
    FirstHistory()[(1, "salary") := Num(Int(50))][(1, "age") := Num(Int(25))]
  }

  /** The call sequence at the end of incrementalMap.ts, with what each
      get returns: snapshot 1 does not see the name set under snapshot 0,
      and going back to snapshot 0 finds its values unchanged. */
  method Scenario() returns (name1: Option<Value>, salary1: Option<Value>,
                             name2: Option<Value>, salary2: Option<Value>, age2: Option<Value>,
                             name3: Option<Value>, salary3: Option<Value>)
    ensures name1 == Some(Str("John")) && salary1 == Some(Num(Int(10)))
    ensures name2 == None && salary2 == Some(Num(Int(50))) && age2 == Some(Num(Int(25)))
    ensures name3 == Some(Str("John")) && salary3 == Some(Num(Int(10)))
  {
    var m := new IncrementalMap<Value>();
    name1, salary1 := FirstSnapshot(m);
    name2, salary2, age2 := SecondSnapshot(m);
    name3, salary3 := BackToFirst(m);
  }

  method FirstSnapshot(m: IncrementalMap<Value>) returns (name: Option<Value>, salary: Option<Value>)
    requires m.Valid() && m.history == map[]
    modifies m
    ensures m.Valid() && m.history == FirstHistory()
    ensures name == Some(Str("John")) && salary == Some(Num(Int(10)))
  {
    m.Snapshot(0);
    m.Set("name", Str("John"));
    m.Set("salary", Num(Int(10)));
    name := m.Get("name");
    salary := m.Get("salary");
  }

  method SecondSnapshot(m: IncrementalMap<Value>) returns (name: Option<Value>, salary: Option<Value>, age: Option<Value>)
    requires m.Valid() && m.history == FirstHistory()
    modifies m
    ensures m.Valid() && m.history == SecondHistory()
    ensures name == None && salary == Some(Num(Int(50))) && age == Some(Num(Int(25)))
  {
    m.Snapshot(1);
    m.Set("salary", Num(Int(50)));
    m.Set("age", Num(Int(25)));
    name := m.Get("name");
    salary := m.Get("salary");
    age := m.Get("age");
  }

  method BackToFirst(m: IncrementalMap<Value>) returns (name: Option<Value>, salary: Option<Value>)
    requires m.Valid() && m.history == SecondHistory()
    modifies m
    ensures name == Some(Str("John")) && salary == Some(Num(Int(10)))
  {
    m.Snapshot(0);
    name := m.Get("name");
    salary := m.Get("salary");
  }
}
