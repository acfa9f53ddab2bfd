/**
 * Payer keys derived inside the enclave, under counted ids (`RoflKeyStore` in
 * services/signer/src/keystore.ts): the index on disk, its rebuild from the
 * chain, and minting.
 */
module KeyStore {
  import opened Wrappers
  import opened Hashing
  import opened Vault
  import opened RateLimit

  datatype KeyId =
    | Counted(namespace: string, n: nat)
    /** An id of the original random scheme. */
    | Random(text: string)

  /** The index file: the counted format, or the original bare map. */
  datatype IndexFile =
    | V2(next: map<string, nat>, keys: map<Address, KeyId>)
    | Original(keys: map<Address, KeyId>)

  /** The machine's disk, from new until it is wiped. */
  class IndexDisk {
    var file: Option<IndexFile>
    /** The ids handed out since this disk was new. */
    ghost var handed: set<(string, nat)>

    /** Every id handed out is below the counter on disk; each key is under its own address. */
    ghost predicate Valid(derive: KeyId -> Address)
      reads this
    {
      && (file.Some? ==> KeysOk(file.value.keys, derive))
      && forall p :: p in handed ==>
           file.Some? && file.value.V2? && p.0 in file.value.next && p.1 < file.value.next[p.0]
    }

    constructor (derive: KeyId -> Address)
      ensures Valid(derive) && file == None && handed == {}
    {
      file, handed := None, {};
    }
  }

  /** The counter the index file records for a namespace. */
  function DiskNext(file: Option<IndexFile>, namespace: string): Option<nat> {
    if file.Some? && file.value.V2? && namespace in file.value.next then Some(file.value.next[namespace]) else None
  }

  ghost predicate KeysOk(keys: map<Address, KeyId>, derive: KeyId -> Address) {
    forall a :: a in keys ==> derive(keys[a]) == a
  }

  /** The key daemon: deterministic on the id, or unreachable. */
  class Appd {
    const derive: KeyId -> Address
    const clock: Clock
    /** When `generateKey` was called. */
    ghost var calls: seq<nat>
    /** How often the daemon, the disk or the vault failed the process. */
    ghost var faults: nat

    constructor (derive: KeyId -> Address, clock: Clock)
      ensures this.derive == derive && this.clock == clock && calls == [] && faults == 0
    {
      this.derive, this.clock, calls, faults := derive, clock, [], 0;
    }

    /** A call outside, which may fail. */
    method Try() returns (answered: bool)
      modifies this`faults
      ensures faults == old(faults) + if answered then 0 else 1
    {
      answered := *;
      if !answered {
        faults := faults + 1;
      }
    }

    method GenerateKey(id: KeyId) returns (address: Option<Address>)
      modifies this`calls, this`faults
      ensures calls == old(calls) + [clock.now]
      ensures address.Some? ==> address.value == derive(id)
      ensures faults == old(faults) + if address.Some? then 0 else 1
    {
      calls := calls + [clock.now];
      var answered := Try();
      address := if answered then Some(derive(id)) else None;
    }
  }

  // ------------------------------------------------------------- the scan

  /** The `gap` ids before `e` are all unbound. */
  ghost predicate RunAt(bound: set<nat>, gap: nat, e: nat) {
    gap <= e && forall k :: e - gap <= k < e ==> k !in bound
  }

  /** Where the scan stops: the first run of `gap` unbound ids ends there. */
  ghost predicate EndsAt(bound: set<nat>, gap: nat, e: nat) {
    RunAt(bound, gap, e) && forall i :: 0 <= i < e ==> !RunAt(bound, gap, i)
  }

  ghost predicate IsHighest(bound: set<nat>, highest: int) {
    if bound == {} then highest == -1 else highest >= 0 && highest in bound && forall b :: b in bound ==> b <= highest
  }

  function Below(bound: set<nat>, e: nat): set<nat> {
    set b | b in bound && b < e
  }

  /** The bound ids at or after `n`: what the scan has still to find. */
  function Ahead(ids: set<nat>, n: nat): set<nat> {
    set b | b in ids && b >= n
  }

  /** Every hole below the highest bound id is shorter than `gap`. */
  ghost predicate HolesShort(bound: set<nat>, gap: nat) {
    forall b, e :: b in bound && 0 <= e <= b ==> !RunAt(bound, gap, e)
  }

  /** A scan finds every bound id if and only if every hole is short. */
  lemma ScanFindsAll(bound: set<nat>, gap: nat, e: nat)
    requires EndsAt(bound, gap, e)
    ensures Below(bound, e) == bound <==> HolesShort(bound, gap)
  {
    if Below(bound, e) == bound {
      forall b, i | b in bound && 0 <= i <= b
        ensures !RunAt(bound, gap, i)
      {
        assert b in Below(bound, e);
      }
    }
  }

  predicate IsIdOf(derive: KeyId -> Address, namespace: string, n: nat, a: Address) {
    derive(Counted(namespace, n)) == a
  }

  /** The payers' ids under this namespace are exactly `ids`. */
  ghost predicate IdsOf(derive: KeyId -> Address, namespace: string, payers: set<Address>, ids: set<nat>) {
    forall n: nat :: derive(Counted(namespace, n)) in payers <==> n in ids
  }

  /** Distinct ids have distinct addresses, so finitely many payers are finitely many ids. */
  lemma {:induction false} BoundIdsAreFinite(derive: KeyId -> Address, namespace: string, payers: set<Address>)
    requires forall i: nat, j: nat :: derive(Counted(namespace, i)) == derive(Counted(namespace, j)) ==> i == j
    ensures exists ids: set<nat> :: IdsOf(derive, namespace, payers, ids)
  {
    if payers == {} {
      assert IdsOf(derive, namespace, payers, {});
    } else {
      var a :| a in payers;
      BoundIdsAreFinite(derive, namespace, payers - {a});
      var ids: set<nat> :| IdsOf(derive, namespace, payers - {a}, ids);
      if exists n: nat :: IsIdOf(derive, namespace, n, a) {
        var n: nat :| IsIdOf(derive, namespace, n, a);
        assert IdsOf(derive, namespace, payers, ids + {n});
      } else {
        forall k: nat
          ensures derive(Counted(namespace, k)) in payers <==> k in ids
        {
          assert !IsIdOf(derive, namespace, k, a);
        }
        assert IdsOf(derive, namespace, payers, ids);
      }
    }
  }

  datatype StoreError = AppdFailed | VaultUnreadable | PersistFailed

  class RoflKeyStore {
    const appd: Appd
    const disk: IndexDisk
    const namespace: string
    var keys: map<Address, KeyId>
    var next: map<string, nat>

    ghost predicate Valid()
      reads this`keys, this`next, disk
    {
      && KeysOk(keys, appd.derive)
      && disk.Valid(appd.derive)
      && (disk.file.Some? && disk.file.value.V2? ==>
            forall ns :: ns in disk.file.value.next ==> ns in next && disk.file.value.next[ns] <= next[ns])
    }

    constructor (appd: Appd, disk: IndexDisk, namespace: string)
      requires disk.Valid(appd.derive)
      ensures Valid() && this.appd == appd && this.disk == disk && this.namespace == namespace
      ensures next == if disk.file.Some? && disk.file.value.V2? then disk.file.value.next else map[]
      ensures keys == if disk.file.Some? then disk.file.value.keys else map[]
    {
      this.appd, this.disk, this.namespace := appd, disk, namespace;
      keys := if disk.file.Some? then disk.file.value.keys else map[];
      next := if disk.file.Some? && disk.file.value.V2? then disk.file.value.next else map[];
    }

    method Persist() returns (ok: bool)
      requires Valid()
      modifies disk`file, appd`faults
      ensures Valid()
      ensures appd.faults == old(appd.faults) + if ok then 0 else 1
      ensures disk.file == if ok then Some(V2(next, keys)) else old(disk.file)
    {
      var written := appd.Try();
      if written {
        disk.file := Some(V2(next, keys));
      }
      return written;
    }

    /** `isBound`: it throws rather than answer when it cannot tell. */
    method IsBound(payers: set<Address>, address: Address) returns (answer: Option<bool>)
      modifies appd`faults
      ensures answer.Some? ==> answer.value == (address in payers)
      ensures appd.faults == old(appd.faults) + if answer.Some? then 0 else 1
    {
      var readable := appd.Try();
      answer := if readable then Some(address in payers) else None;
    }

    /** The scan of `recover`: how far it went, how many it found, and the highest of them. */
    method Scan(payers: set<Address>, gap: nat, ghost ids: set<nat>)
      returns (r: Result<(nat, nat, int), StoreError>)
      requires Valid() && IdsOf(appd.derive, namespace, payers, ids)
      modifies this`keys, appd`calls, appd`faults
      ensures Valid()
      ensures r.Ok? ==>
                && EndsAt(ids, gap, r.value.0) && r.value.1 == |Below(ids, r.value.0)|
                && IsHighest(Below(ids, r.value.0), r.value.2)
                && Signable(keys, Below(ids, r.value.0))
      ensures r.Err? ==> !r.error.PersistFailed?
      ensures appd.faults == old(appd.faults) + if r.Ok? then 0 else 1
      ensures forall a :: a in old(keys) ==> a in keys
    {
      hide EndsAt, RunAt, IsHighest, IndexDisk.Valid, Below, Ahead, IdsOf;
      var n: nat, found: nat, highest: int, misses: nat := 0, 0, -1, 0;
      NothingScanned(ids);
      while misses < gap
        invariant misses == n - 1 - highest && misses <= gap
        invariant IsHighest(Below(ids, n), highest) && found == |Below(ids, n)|
        invariant forall i :: 0 <= i < n ==> !RunAt(ids, gap, i)
        invariant KeysOk(keys, appd.derive) && forall a :: a in old(keys) ==> a in keys
        invariant Signable(keys, Below(ids, n)) && appd.faults == old(appd.faults)
        decreases |Ahead(ids, n)|, gap - misses
      {
        var id := Counted(namespace, n);
        var address := appd.GenerateKey(id);
        if address.None? {
          return Err(AppdFailed);
        }
        var bound := IsBound(payers, address.value);
        BoundIsKnown(payers, ids, n);
        if bound.None? {
          return Err(VaultUnreadable);
        }
        NotYetRun(ids, gap, n, highest);
        ScannedOne(ids, n, highest);
        if bound.value {
          keys := keys[address.value := id];
          found := found + 1;
          highest := n;
          misses := 0;
        } else {
          misses := misses + 1;
        }
        n := n + 1;
      }
      ScanEnds(ids, gap, n, highest);
      return Ok((n, found, highest));
    }

    lemma BoundIsKnown(payers: set<Address>, ids: set<nat>, n: nat)
      requires IdsOf(appd.derive, namespace, payers, ids)
      ensures appd.derive(Counted(namespace, n)) in payers <==> n in ids
    {
    }

    ghost predicate Signable(keys: map<Address, KeyId>, ids: set<nat>) {
      forall n: nat :: n in ids ==> appd.derive(Counted(namespace, n)) in keys
    }

    /**
     * `recover`. When the index has no record of this namespace, every bound id
     * before the first run of `gap` unbound ids becomes signable and the counter
     * resumes right after the highest of them. A scan that throws records
     * nothing, so the next boot scans again. It terminates for every finite set
     * of bound ids.
     */
    method Recover(payers: set<Address>, gap: nat, ghost ids: set<nat>)
      returns (r: Result<Option<(nat, nat)>, StoreError>)
      requires Valid() && IdsOf(appd.derive, namespace, payers, ids)
      modifies this`keys, this`next, disk`file, appd`calls, appd`faults
      ensures Valid()
      ensures namespace in old(next) ==>
                r == Ok(None) && keys == old(keys) && next == old(next) && disk.file == old(disk.file)
      ensures namespace !in old(next) && r.Ok? ==>
                && r.value.Some?
                && var (scanned, found) := r.value.value;
                   && EndsAt(ids, gap, scanned) && found == |Below(ids, scanned)|
                   && Signable(keys, Below(ids, scanned))
                   && (exists highest :: IsHighest(Below(ids, scanned), highest)
                        && next == old(next)[namespace := highest + 1])
                   && disk.file == Some(V2(next, keys))
      ensures r.Err? ==> disk.file == old(disk.file) && (!r.error.PersistFailed? ==> next == old(next))
      ensures appd.faults == old(appd.faults) + if r.Ok? then 0 else 1
      ensures forall a :: a in old(keys) ==> a in keys
    {
      hide EndsAt, IsHighest;
      if namespace in next {
        return Ok(None);
      }
      var scan := Scan(payers, gap, ids);
      if scan.Err? {
        return Err(scan.error);
      }
      var (n, found, highest) := scan.value;
      assert IsHighest(Below(ids, n), highest);
      HighestIsInt(ids, n, highest);
      next := next[namespace := highest + 1];
      var ok := Persist();
      if !ok {
        return Err(PersistFailed);
      }
      return Ok(Some((n, found)));
    }

    /**
     * `mint`. The counter is advanced and on disk before anything is derived, so
     * the id is one this disk has never handed out, whatever crashes or throws.
     */
    method Mint() returns (r: Result<Address, StoreError>)
      requires Valid()
      modifies this`keys, this`next, disk, appd`calls, appd`faults
      ensures Valid()
      ensures var n: nat := if namespace in old(next) then old(next)[namespace] else 0;
              && next == old(next)[namespace := n + 1]
              && (r.Ok? ==>
                    && r.value == appd.derive(Counted(namespace, n)) && r.value in keys
                    && (namespace, n) !in old(disk.handed)
                    && disk.handed == old(disk.handed) + {(namespace, n)}
                    && disk.file == Some(V2(next, keys)))
      ensures r.Err? ==> disk.handed == old(disk.handed)
      ensures appd.faults == old(appd.faults) + if r.Ok? then 0 else 1
      ensures var n: nat := if namespace in old(next) then old(next)[namespace] else 0;
              || DiskNext(disk.file, namespace) == Some(n + 1)
              || (r == Err(PersistFailed) && disk.file == old(disk.file))
      ensures forall a :: a in old(keys) ==> a in keys
      ensures appd.calls == old(appd.calls) || appd.calls == old(appd.calls) + [appd.clock.now]
    {
      hide IndexDisk.Valid;
      var n := Reserve();
      if n.Err? {
        return Err(n.error);
      }
      r := Finish(n.value);
    }

    /** An id that was reserved and not handed out, with the counter past it on disk. */
    ghost predicate Reserved(n: nat)
      reads disk
    {
      && DiskNext(disk.file, namespace).Some? && n < DiskNext(disk.file, namespace).value
      && (namespace, n) !in disk.handed
    }

    /** The first part of `mint`, which nothing interrupts: the counter is advanced and on disk. */
    method Reserve() returns (r: Result<nat, StoreError>)
      requires Valid()
      modifies this`next, disk`file, appd`faults
      ensures Valid()
      ensures appd.faults == old(appd.faults) + if r.Ok? then 0 else 1
      ensures var n: nat := if namespace in old(next) then old(next)[namespace] else 0;
              && next == old(next)[namespace := n + 1]
              && (if r.Ok? then r.value == n && disk.file == Some(V2(next, keys))
                  else r.error == PersistFailed && disk.file == old(disk.file))
      ensures r.Ok? ==> Reserved(r.value) && forall k: nat :: old(Reserved(k)) ==> k < r.value && Reserved(k)
    {
      var n: nat := if namespace in next then next[namespace] else 0;
      next := next[namespace := n + 1];
      var advanced := Persist();
      return if advanced then Ok(n) else Err(PersistFailed);
    }

    /** The rest, before which and during which other mints may run. */
    method Finish(n: nat) returns (r: Result<Address, StoreError>)
      requires Valid() && Reserved(n)
      modifies this`keys, disk, appd`calls, appd`faults
      ensures Valid()
      ensures r.Ok? ==>
                && r.value == appd.derive(Counted(namespace, n)) && r.value in keys
                && disk.handed == old(disk.handed) + {(namespace, n)} && disk.file == Some(V2(next, keys))
      ensures r.Err? ==> disk.handed == old(disk.handed)
      ensures appd.faults == old(appd.faults) + if r.Ok? then 0 else 1
      ensures disk.file == old(disk.file) || disk.file == Some(V2(next, keys))
      ensures forall k: nat :: old(Reserved(k)) && k != n ==> Reserved(k)
      ensures forall a :: a in old(keys) ==> a in keys
      ensures appd.calls == old(appd.calls) + [appd.clock.now]
    {
      var id := Counted(namespace, n);
      var address := appd.GenerateKey(id);
      if address.None? {
        return Err(AppdFailed);
      }
      keys := keys[address.value := id];
      var recorded := Persist();
      if !recorded {
        return Err(PersistFailed);
      }
      disk.handed := disk.handed + {(namespace, n)};
      return Ok(address.value);
    }

    /**
     * Any number of mints in one process, interleaved in any way, whatever
     * fails: each turn starts one more or finishes one of those under way. No
     * two are given one id, and none an id this disk handed out before.
     */
    method MintTogether(turns: nat) returns (addresses: seq<Address>, ghost ids: seq<nat>)
      requires Valid()
      modifies this`keys, this`next, disk, appd`calls, appd`faults
      ensures Valid() && |ids| == |addresses|
      ensures forall i :: 0 <= i < |ids| ==>
                addresses[i] == appd.derive(Counted(namespace, ids[i])) && (namespace, ids[i]) !in old(disk.handed)
      ensures forall i, j :: 0 <= i < j < |ids| ==> ids[i] != ids[j]
      ensures disk.handed == old(disk.handed) + set n | n in ids :: (namespace, n)
    {
      hide IndexDisk.Valid;
      var waiting: set<nat> := {};
      addresses, ids := [], [];
      for turn := 0 to turns
        invariant Valid() && |ids| == |addresses|
        invariant forall n :: n in waiting ==> Reserved(n)
        invariant forall i :: 0 <= i < |ids| ==>
                    addresses[i] == appd.derive(Counted(namespace, ids[i])) && (namespace, ids[i]) !in old(disk.handed)
        invariant forall i, j :: 0 <= i < j < |ids| ==> ids[i] != ids[j]
        invariant disk.handed == old(disk.handed) + set n | n in ids :: (namespace, n)
      {
        var starts: bool := *;
        if starts || waiting == {} {
          var n := Reserve();
          if n.Ok? {
            waiting := waiting + {n.value};
          }
        } else {
          var n :| n in waiting;
          waiting := waiting - {n};
          var address := Finish(n);
          if address.Ok? {
            addresses, ids := addresses + [address.value], ids + [n];
          }
        }
      }
    }

    /** `signerFor`: a signer only for an address it holds, and it is that address's. */
    method SignerFor(address: Address) returns (r: Result<Option<Address>, StoreError>)
      requires Valid()
      modifies appd`calls, appd`faults
      ensures r.Ok? ==> r.value == if address in keys then Some(address) else None
      ensures appd.faults == old(appd.faults) + if r.Ok? then 0 else 1
      ensures appd.calls == old(appd.calls) || appd.calls == old(appd.calls) + [appd.clock.now]
    {
      if address !in keys {
        return Ok(None);
      }
      var signer := appd.GenerateKey(keys[address]);
      return if signer.Some? then Ok(Some(signer.value)) else Err(AppdFailed);
    }
  }

  lemma NotYetRun(ids: set<nat>, gap: nat, n: nat, highest: int)
    requires IsHighest(Below(ids, n), highest) && n - 1 - highest < gap
    ensures !RunAt(ids, gap, n)
  {
    if highest >= 0 { assert highest in Below(ids, n); }
  }

  lemma NothingScanned(ids: set<nat>)
    ensures Below(ids, 0) == {} && IsHighest(Below(ids, 0), -1)
  {
  }

  /** One more id is behind the scan: found if bound, and then nearer the last of them. */
  lemma ScannedOne(ids: set<nat>, n: nat, highest: int)
    requires IsHighest(Below(ids, n), highest)
    ensures IsHighest(Below(ids, n + 1), if n in ids then n else highest)
    ensures Below(ids, n + 1) == if n in ids then Below(ids, n) + {n} else Below(ids, n)
    ensures |Below(ids, n + 1)| == |Below(ids, n)| + if n in ids then 1 else 0
    ensures |Ahead(ids, n + 1)| == |Ahead(ids, n)| - if n in ids then 1 else 0
  {
    hide IsHighest, Below, Ahead;
    BelowNext(ids, n);
    AheadNext(ids, n);
    HighestNext(ids, n, highest);
  }

  lemma BelowNext(ids: set<nat>, n: nat)
    ensures Below(ids, n + 1) == if n in ids then Below(ids, n) + {n} else Below(ids, n)
    ensures n !in Below(ids, n)
  {
  }

  lemma AheadNext(ids: set<nat>, n: nat)
    ensures Ahead(ids, n + 1) == if n in ids then Ahead(ids, n) - {n} else Ahead(ids, n)
    ensures n in ids ==> n in Ahead(ids, n)
  {
  }

  lemma HighestNext(ids: set<nat>, n: nat, highest: int)
    requires IsHighest(Below(ids, n), highest)
    ensures IsHighest(Below(ids, n + 1), if n in ids then n else highest)
  {
    BelowNext(ids, n);
    if n in ids { assert n in Below(ids, n + 1); }
  }

  lemma ScanEnds(ids: set<nat>, gap: nat, n: nat, highest: int)
    requires IsHighest(Below(ids, n), highest) && n - 1 - highest == gap
    requires forall i :: 0 <= i < n ==> !RunAt(ids, gap, i)
    ensures EndsAt(ids, gap, n)
  {
    forall k | n - gap <= k < n
      ensures k !in ids
    {
      assert k !in Below(ids, n);
    }
  }

  lemma HighestIsInt(ids: set<nat>, n: nat, highest: int)
    requires IsHighest(Below(ids, n), highest)
    ensures highest >= -1
  {
  }
}
