/**
 * The signer's process around the key store: boot, mint, die, and the disk it
 * runs on (services/signer/src/main.ts). Each of its methods is proved a step
 * of the machine in `KeyEpochs`, whose theorems therefore hold of it.
 */
module KeyService {
  import opened Wrappers
  import opened Hashing
  import opened Vault
  import opened KeyStore
  import opened KeyEpochs

  class KeyService {
    const appd: Appd
    const disk: IndexDisk
    const namespace: string
    /** The store of the process that is serving, if one is. */
    var store: RoflKeyStore?
    ghost var events: seq<Event>

    /** The machine's state is what the process and the disk hold. */
    ghost predicate Valid()
      reads this, disk, store, if store != null then {store.disk} else {}
    {
      var m := After(events);
      && disk.Valid(appd.derive)
      && m.disk == DiskNext(disk.file, namespace)
      && (store == null ==> m.memory == None)
      && (store != null ==>
            && store.appd == appd && store.disk == disk && store.namespace == namespace && store.Valid()
            && namespace in store.next && m.memory == Some(store.next[namespace]))
      && (forall n: nat :: n in m.lifetime <==> (namespace, n) in disk.handed)
    }

    constructor (appd: Appd, disk: IndexDisk, namespace: string)
      requires disk.Valid(appd.derive) && disk.file == None && disk.handed == {}
      ensures Valid() && store == null && events == []
      ensures this.appd == appd && this.disk == disk && this.namespace == namespace
    {
      this.appd, this.disk, this.namespace := appd, disk, namespace;
      store, events := null, [];
    }

    /**
     * The boot: it serves only once the index has a record of the namespace. A
     * scan or a write that throws stops the boot, and the next one scans again.
     */
    method Start(payers: set<Address>, gap: nat, ghost ids: set<nat>) returns (serving: bool)
      requires Valid() && store == null
      requires ids == After(events).bound && IdsOf(appd.derive, namespace, payers, ids)
      modifies this`store, this`events, disk`file, appd`calls, appd`faults
      ensures Valid() && serving == (store != null)
      ensures |events| == |old(events)| + 1 && old(events) <= events && events[|events| - 1].Boot?
      ensures After(old(events)).disk.Some? ==> serving
      ensures appd.faults == old(appd.faults) + if serving then 0 else 1
    {
      hide IndexDisk.Valid, EndsAt, IsHighest, IdsOf, After;
      var booting := new RoflKeyStore(appd, disk, namespace);
      var r := booting.Recover(payers, gap, ids);
      ghost var boot := Boot(gap, 0, 0, true);
      if r.Ok? && r.value.Some? {
        ghost var scanned := r.value.value.0;
        ghost var highest :| IsHighest(Below(ids, scanned), highest) && booting.next[namespace] == highest + 1;
        boot := Boot(gap, scanned, highest, false);
      }
      AfterOne(events, boot);
      events := events + [boot];
      serving := r.Ok?;
      if serving {
        store := booting;
      }
    }

    /** One mint, whatever fails in it. An id handed out is new to this disk. */
    method MintPayer() returns (r: Result<Address, StoreError>)
      requires Valid() && store != null
      modifies this`events, store`keys, store`next, disk, appd`calls, appd`faults
      ensures Valid() && store == old(store)
      ensures |events| == |old(events)| + 1 && old(events) <= events && events[|events| - 1].MintId?
      ensures appd.faults == old(appd.faults) + if r.Ok? then 0 else 1
      ensures var n := After(old(events)).memory.value;
              r.Ok? ==> r.value == appd.derive(Counted(namespace, n)) && HandsOut(After(old(events)), n)
    {
      hide IndexDisk.Valid, After, HandsOut;
      ghost var n := store.next[namespace];
      r := store.Mint();
      ghost var mint := MintId(DiskNext(disk.file, namespace) == Some(n + 1), r.Ok?);
      AfterOne(events, mint);
      HandsOutIsNext(After(events), n);
      events := events + [mint];
    }

    /** The process ends; the disk stays. */
    method Die()
      requires Valid()
      modifies this`store, this`events
      ensures Valid() && store == null && events == old(events) + [Crash]
    {
      AfterOne(events, Crash);
      store, events := null, events + [Crash];
    }

    /** The machine is lost with its disk, and another starts on an empty one. */
    method LoseDisk()
      requires Valid()
      modifies this`store, this`events, disk
      ensures Valid() && store == null && disk.file == None && events == old(events) + [Wipe]
    {
      AfterOne(events, Wipe);
      store, events := null, events + [Wipe];
      disk.file, disk.handed := None, {};
    }

    /** The vault binds a payer that was handed out. */
    ghost method BindPayer(n: nat)
      requires Valid()
      modifies this`events
      ensures Valid() && events == old(events) + [Bind(n)]
    {
      AfterOne(events, Bind(n));
      events := events + [Bind(n)];
    }

    /** So whatever the machine keeps over every run, the service keeps. */
    lemma ServiceIsSound()
      requires Valid()
      ensures Sound(After(events))
    {
      AlwaysSound(events);
    }
  }
}
