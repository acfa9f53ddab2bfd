/**
 * Where completed traces live: a directory of JSON files behind a bounded
 * cache (services/orchestrator/src/trace-store.ts), across crashes and restarts.
 */
module TraceStore {
  import opened Wrappers
  import opened Json
  import opened Traces
  import TraceFile

  const MAX_CACHED := 64

  /** `/^[0-9]{1,32}$/`. */
  predicate IsGoalId(s: string) {
    1 <= |s| <= 32 && forall i :: 0 <= i < |s| ==> IsDigit(s[i])
  }

  /** A trace as it comes back from its file. */
  function Reloaded(t: Trace): Trace {
    t.(steps := TraceFile.StoredSteps(t.steps))
  }

  /** The same trace, up to bigints written as decimal strings and undefined members gone. */
  predicate SameTrace(saved: Trace, got: Trace) {
    got == saved || got == Reloaded(saved)
  }

  /** The directory, which outlives any process. */
  class TraceDir {
    var files: map<string, string>
    /** Temporary files a crash may have left behind, with anything in them. */
    var temps: map<string, string>
    /** The last completed save of each goal. */
    ghost var saved: map<string, Trace>
    /** How often the process died over it, or a call of the file system failed. */
    ghost var faults: nat

    /** Every file is one whole saved trace. */
    ghost predicate Valid()
      reads this`files, this`saved
    {
      files.Keys == saved.Keys && forall id :: id in files ==> files[id] == TraceFile.Save(saved[id])
    }

    constructor ()
      ensures Valid() && saved == map[]
    {
      files, temps, saved, faults := map[], map[], map[], 0;
    }

    /** One call of the file system: it may fail, or the process may die in it. */
    method Try() returns (ok: bool, dies: bool)
      modifies this`faults
      ensures faults == old(faults) + if ok then 0 else 1
    {
      ok, dies := *, *;
      if !ok {
        faults := faults + 1;
      }
    }
  }

  /** `order` without `id`. */
  function Without(order: seq<string>, id: string): seq<string> {
    if order == [] then [] else (if order[0] == id then [] else [order[0]]) + Without(order[1..], id)
  }

  /** `Map.delete` then `Map.set`: the key becomes the newest. */
  function Touched(order: seq<string>, id: string): seq<string> {
    Without(order, id) + [id]
  }

  predicate Distinct(order: seq<string>) {
    forall i, j :: 0 <= i < j < |order| ==> order[i] != order[j]
  }

  ghost predicate OrderOf(order: seq<string>, keys: set<string>) {
    Distinct(order) && forall id :: id in order <==> id in keys
  }

  datatype SaveOutcome = Saved | IgnoredId | SaveThrew | Crashed

  class TraceStore {
    const dir: TraceDir
    var cache: map<string, Trace>
    /** The insertion order of the cache's keys, oldest first. */
    var order: seq<string>

    /** Whatever is cached is on disk already, and is the last completed save. */
    ghost predicate Valid()
      reads this, dir`files, dir`saved
    {
      && dir.Valid() && OrderOf(order, cache.Keys)
      && forall id :: id in cache ==> id in dir.saved && SameTrace(dir.saved[id], cache[id])
    }

    /** A process starts over whatever the directory holds. */
    constructor (dir: TraceDir)
      requires dir.Valid()
      ensures Valid() && this.dir == dir && cache == map[]
    {
      this.dir, cache, order := dir, map[], [];
    }

    /**
     * Persists, then caches. A crash or a throw at any point leaves the
     * directory with whole files only: the old trace, or the new one. It fails
     * only for such a fault.
     */
    method Save(goalId: string, trace: Trace) returns (o: SaveOutcome)
      requires Valid()
      modifies this, dir
      ensures dir.Valid() && (!o.Crashed? ==> Valid())
      ensures o.IgnoredId? <==> !IsGoalId(goalId)
      ensures o.Saved? || o.IgnoredId? <==> dir.faults == old(dir.faults)
      ensures o.Saved? ==>
                && dir.saved == old(dir.saved)[goalId := trace] && cache.Keys <= old(cache.Keys) + {goalId}
                && goalId in cache && cache[goalId] == trace
                && order == var touched := Touched(old(order), goalId);
                     if |touched| > MAX_CACHED then touched[1..] else touched
      ensures o.Saved? && |old(cache)| <= MAX_CACHED ==> |cache| <= MAX_CACHED
      ensures o.Crashed? ==> dir.saved == old(dir.saved) || dir.saved == old(dir.saved)[goalId := trace]
      ensures !o.Saved? && !o.Crashed? ==> dir.saved == old(dir.saved) && cache == old(cache) && order == old(order)
    {
      hide TraceFile.Save, Touched, OrderOf, SameTrace;
      if !IsGoalId(goalId) {
        return IgnoredId;
      }
      o := WriteFile(goalId, trace);
      if !o.Saved? {
        return;
      }
      var lives, dies := dir.Try();
      if !lives {
        return Crashed;
      }
      Remember(goalId, trace);
    }

    /** To a temporary name, then renamed into place. */
    method WriteFile(goalId: string, trace: Trace) returns (o: SaveOutcome)
      requires dir.Valid()
      modifies dir
      ensures dir.Valid() && !o.IgnoredId?
      ensures dir.faults == old(dir.faults) + if o.Saved? then 0 else 1
      ensures dir.saved == if o.Saved? then old(dir.saved)[goalId := trace] else old(dir.saved)
    {
      hide TraceFile.Save;
      var text := TraceFile.Save(trace);
      var written, diesWriting := dir.Try();
      if !written {
        // The write stopped somewhere: any part of it may be in the temporary file.
        var part: string := *;
        dir.temps := dir.temps[goalId := part];
        return if diesWriting then Crashed else SaveThrew;
      }
      dir.temps := dir.temps[goalId := text];
      var renamed, diesRenaming := dir.Try();
      if !renamed {
        return if diesRenaming then Crashed else SaveThrew;
      }
      dir.temps, dir.files := dir.temps - {goalId}, dir.files[goalId := dir.temps[goalId]];
      dir.saved := dir.saved[goalId := trace];
      return Saved;
    }

    /** The cache's part of `save`, once the file is in place. */
    method Remember(goalId: string, trace: Trace)
      requires dir.Valid() && OrderOf(order, cache.Keys) && goalId in dir.saved && dir.saved[goalId] == trace
      requires forall id :: id in cache && id != goalId ==> id in dir.saved && SameTrace(dir.saved[id], cache[id])
      modifies this
      ensures Valid() && goalId in cache && cache[goalId] == trace && cache.Keys <= old(cache.Keys) + {goalId}
      ensures order == var touched := Touched(old(order), goalId);
                if |touched| > MAX_CACHED then touched[1..] else touched
      ensures |old(cache)| <= MAX_CACHED ==> |cache| <= MAX_CACHED
    {
      hide TraceDir.Valid, OrderOf, Touched, SameTrace;
      InsertKeepsOrder(order, cache, goalId, trace);
      SameAsSaved(trace);
      var touched, more := Touched(order, goalId), cache[goalId := trace];
      if |more| > MAX_CACHED {
        touched, more := touched[1..], more - {touched[0]};
      }
      cache, order := more, touched;
    }

    /**
     * What `get` returns is the last completed save of the goal, from any
     * process. Only a read from disk grows the cache, and that one evicts
     * nothing: the bound is `save`'s alone.
     */
    method Get(goalId: string) returns (r: Option<Trace>)
      requires Valid()
      modifies this, dir`faults
      ensures Valid()
      ensures r.Some? ==> IsGoalId(goalId) && goalId in dir.saved && SameTrace(dir.saved[goalId], r.value)
      ensures r.None? <==> !IsGoalId(goalId) || goalId !in dir.saved || dir.faults > old(dir.faults)
      ensures dir.faults > old(dir.faults) ==> goalId !in old(cache)
      ensures r.Some? ==> order == Touched(old(order), goalId) && cache == old(cache)[goalId := r.value]
      ensures r.None? ==> cache == old(cache) && order == old(order)
    {
      hide TraceFile.Save, TraceFile.Load;
      if !IsGoalId(goalId) {
        return None;
      }
      TouchedOrder(order, cache.Keys, goalId);
      if goalId in cache {
        order := Touched(order, goalId);
        return Some(cache[goalId]);
      }
      if goalId !in dir.files {
        return None;
      }
      var readable, dies := dir.Try();
      var loaded := if readable then TraceFile.Load(dir.files[goalId]) else None;
      TraceFile.SaveLoad(dir.saved[goalId]);
      if loaded.None? {
        return None;
      }
      NothingToRemove(order, goalId);
      cache, order := cache[goalId := loaded.value], order + [goalId];
      return loaded;
    }
  }

  lemma {:induction false} WithoutHas(order: seq<string>, id: string)
    requires Distinct(order)
    ensures var rest := Without(order, id);
            Distinct(rest) && forall k :: k in rest <==> k in order && k != id
  {
    if order == [] {
    } else {
      assert forall i, j :: 0 <= i < j < |order[1..]| ==> order[1..][i] != order[1..][j];
      WithoutHas(order[1..], id);
      assert order == [order[0]] + order[1..];
      assert order[0] !in order[1..];
      DistinctCons(order[0], Without(order[1..], id));
    }
  }

  lemma DistinctCons(first: string, rest: seq<string>)
    requires Distinct(rest) && first !in rest
    ensures Distinct([first] + rest)
  {
    var all := [first] + rest;
    forall i, j | 0 <= i < j < |all|
      ensures all[i] != all[j]
    {
      if i == 0 { assert all[j] == rest[j - 1]; } else { assert all[i] == rest[i - 1] && all[j] == rest[j - 1]; }
    }
  }

  lemma TouchedOrder(order: seq<string>, keys: set<string>, id: string)
    requires OrderOf(order, keys)
    ensures OrderOf(Touched(order, id), keys + {id})
  {
    WithoutHas(order, id);
  }

  lemma SameAsSaved(t: Trace)
    ensures SameTrace(t, t)
  {
  }

  /** What an insert leaves, with the oldest key evicted or not. */
  lemma InsertKeepsOrder(order: seq<string>, cache: map<string, Trace>, id: string, trace: Trace)
    requires OrderOf(order, cache.Keys)
    ensures var touched, more := Touched(order, id), cache[id := trace];
            && OrderOf(touched, more.Keys) && |touched| == |more| <= |cache| + 1
            && (|more| > MAX_CACHED ==>
                  && touched[0] != id && OrderOf(touched[1..], (more - {touched[0]}).Keys)
                  && |more - {touched[0]}| == |more| - 1)
  {
    hide OrderOf;
    var touched, more := Touched(order, id), cache[id := trace];
    TouchedOrder(order, cache.Keys, id);
    assert more.Keys == cache.Keys + {id};
    OrderIsSize(touched, more.Keys);
    if |more| > MAX_CACHED {
      DropOldest(touched, more.Keys);
      NewestStays(touched, more.Keys, id);
      assert (more - {touched[0]}).Keys == more.Keys - {touched[0]};
      OrderIsSize(touched[1..], (more - {touched[0]}).Keys);
    }
  }

  lemma {:induction false} NothingToRemove(order: seq<string>, id: string)
    requires id !in order
    ensures Without(order, id) == order
  {
    if order == [] {
    } else {
      NothingToRemove(order[1..], id);
      assert order == [order[0]] + order[1..];
    }
  }

  lemma {:induction false} OrderIsSize(order: seq<string>, keys: set<string>)
    requires OrderOf(order, keys)
    ensures |order| == |keys|
  {
    if order == [] {
      assert keys == {};
    } else {
      DropOldest(order, keys);
      OrderIsSize(order[1..], keys - {order[0]});
    }
  }

  lemma DropOldest(order: seq<string>, keys: set<string>)
    requires OrderOf(order, keys) && order != []
    ensures OrderOf(order[1..], keys - {order[0]}) && order[0] in keys
  {
    assert order == [order[0]] + order[1..];
  }

  lemma NewestStays(order: seq<string>, keys: set<string>, id: string)
    requires OrderOf(order, keys) && |order| > 1 && order[|order| - 1] == id
    ensures order[0] != id
  {
  }
}
