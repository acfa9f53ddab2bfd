/**
 * Canonical serialisation (services/trace/src/canonical.ts).
 *
 * `Canonical` follows the code: sort the keys, drop `undefined` members, turn a
 * bigint into its decimal string, print without space. `MeaningOf` is the
 * reference it is proved against: an object means a map, so it has no order to
 * lose. Two values get the same bytes exactly when they mean the same.
 */
module Canonical {
  import opened Wrappers
  import opened Hashing
  import opened Json

  /** Assigning this key on a plain object sets its prototype and adds no member. */
  const PROTO := "__proto__"

  // ------------------------------------------------------------ key order

  /** A fixed total order on keys: lexicographic by character. */
  predicate Less(a: string, b: string) {
    if a == "" then b != ""
    else b != "" && (a[0] < b[0] || (a[0] == b[0] && Less(a[1..], b[1..])))
  }

  lemma {:induction false} LessTotal(a: string, b: string)
    ensures Less(a, b) || Less(b, a) || a == b
    ensures !(Less(a, b) && Less(b, a)) && !(Less(a, b) && a == b)
  {
    if a != "" && b != "" && a[0] == b[0] {
      LessTotal(a[1..], b[1..]);
      assert a == [a[0]] + a[1..] && b == [b[0]] + b[1..];
    }
  }

  lemma {:induction false} LessTransitive(a: string, b: string, c: string)
    requires Less(a, b) && Less(b, c)
    ensures Less(a, c)
  {
    if a != "" && a[0] == b[0] == c[0] {
      LessTransitive(a[1..], b[1..], c[1..]);
    }
  }

  // ---------------------------------------------------------- the members

  predicate HasKey(ms: Members, key: string) {
    ms.Member? && (ms.key == key || HasKey(ms.tail, key))
  }

  /** Sorted strictly below `bound` on the left: every key is greater than it. */
  predicate Above(bound: string, ms: Members)
    decreases ms
  {
    ms.Member? ==> Less(bound, ms.key) && Above(ms.key, ms.tail)
  }

  predicate StrictlySorted(ms: Members) {
    ms.Member? ==> Above(ms.key, ms.tail)
  }

  /** Inserts in key order. A key already there came later in the source, so it stays. */
  function Insert(key: string, v: Value, ms: Members): Members {
    match ms
    case NoMembers => Member(key, v, NoMembers)
    case Member(k, w, tail) =>
      if key == k then ms
      else if Less(key, k) then Member(key, v, ms)
      else Member(k, w, Insert(key, v, tail))
  }

  /** The members in the order of `Object.keys(source).sort()`; of a repeated key, the last. */
  function Sorted(ms: Members): Members {
    match ms
    case NoMembers => NoMembers
    case Member(key, v, tail) => Insert(key, v, Sorted(tail))
  }

  // ----------------------------------------------------------------- size

  function Size(v: Value): nat {
    match v
    case Arr(items) => 1 + ItemsSize(items)
    case Obj(ms) => 1 + MembersSize(ms)
    case _ => 1
  }

  function ItemsSize(items: Items): nat {
    match items
    case NoItems => 0
    case Item(head, tail) => 1 + Size(head) + ItemsSize(tail)
  }

  function MembersSize(ms: Members): nat {
    match ms
    case NoMembers => 0
    case Member(_, v, tail) => 1 + Size(v) + MembersSize(tail)
  }

  lemma InsertSize(key: string, v: Value, ms: Members)
    ensures MembersSize(Insert(key, v, ms)) <= 1 + Size(v) + MembersSize(ms)
  {
  }

  lemma {:induction false} SortedSize(ms: Members)
    ensures MembersSize(Sorted(ms)) <= MembersSize(ms)
  {
    if ms.NoMembers? {
    } else {
      SortedSize(ms.tail);
      InsertSize(ms.key, ms.value, Sorted(ms.tail));
    }
  }

  // --------------------------------------------------------- canonicalize

  /** `canonicalize`. `None` is the throw on an `undefined` that is not a member. */
  function Canonical(v: Value): Option<Value>
    decreases Size(v), 1
  {
    match v
    case Undefined => None
    case BigInt(n) => Some(Str(Decimal(n)))
    case Arr(items) =>
      (match CanonicalItems(items)
       case None => None
       case Some(out) => Some(Arr(out)))
    case Obj(ms) =>
      SortedSize(ms);
      (match CanonicalMembers(Sorted(ms))
       case None => None
       case Some(out) => Some(Obj(out)))
    case _ => Some(v)
  }

  function CanonicalItems(items: Items): Option<Items>
    decreases ItemsSize(items), 0
  {
    match items
    case NoItems => Some(NoItems)
    case Item(head, tail) =>
      match (Canonical(head), CanonicalItems(tail))
      case (Some(c), Some(out)) => Some(Item(c, out))
      case _ => None
  }

  function CanonicalMembers(ms: Members): Option<Members>
    decreases MembersSize(ms), 0
  {
    match ms
    case NoMembers => Some(NoMembers)
    case Member(key, v, tail) =>
      if v.Undefined? then CanonicalMembers(tail) else
        match (Canonical(v), CanonicalMembers(tail))
        case (Some(c), Some(out)) => Some(if key == PROTO then out else Member(key, c, out))
        case _ => None
  }

  /** `out` followed by what the rest of the keys will add. */
  function Append(out: Members, more: Members): Members {
    match out
    case NoMembers => more
    case Member(key, v, tail) => Member(key, v, Append(tail, more))
  }

  lemma {:induction false} AppendOne(out: Members, key: string, v: Value, more: Members)
    ensures Append(Append(out, Member(key, v, NoMembers)), more) == Append(out, Member(key, v, more))
  {
    if out.NoMembers? {
    } else {
      AppendOne(out.tail, key, v, more);
    }
  }

  lemma AppendNone(out: Members)
    ensures Append(out, NoMembers) == out
  {
  }

  /** The recursion of the source, with its loop over the sorted keys. */
  method Canonicalize(v: Value) returns (r: Option<Value>)
    ensures r == Canonical(v)
    decreases Size(v), 1
  {
    match v {
      case Undefined => return None;
      case BigInt(n) => return Some(Str(Decimal(n)));
      case Arr(items) =>
        var out := CanonicalizeItems(items);
        return if out.None? then None else Some(Arr(out.value));
      case Obj(ms) =>
        SortedSize(ms);
        var out := NoMembers;
        var rest := Sorted(ms);
        AppendNone(out);
        while rest.Member?
          invariant MembersSize(rest) < Size(v)
          invariant CanonicalMembers(Sorted(ms)) ==
                      match CanonicalMembers(rest)
                      case None => None
                      case Some(more) => Some(Append(out, more))
          decreases rest
        {
          var member := rest.value;
          if !member.Undefined? {
            var c := Canonicalize(member);
            if c.None? {
              return None;
            }
            if rest.key != PROTO {
              ghost var more := CanonicalMembers(rest.tail);
              if more.Some? { AppendOne(out, rest.key, c.value, more.value); }
              out := Append(out, Member(rest.key, c.value, NoMembers));
            }
          }
          rest := rest.tail;
        }
        AppendNone(out);
        return Some(Obj(out));
      case _ => return Some(v);
    }
  }

  method CanonicalizeItems(items: Items) returns (r: Option<Items>)
    ensures r == CanonicalItems(items)
    decreases ItemsSize(items), 0
  {
    match items {
      case NoItems => return Some(NoItems);
      case Item(head, tail) =>
        var c := Canonicalize(head);
        if c.None? {
          return None;
        }
        var out := CanonicalizeItems(tail);
        return if out.None? then None else Some(Item(c.value, out.value));
    }
  }

  // -------------------------------------------------------------- meaning

  datatype Meaning =
    | MNull
    | MBool(b: bool)
    | MNum(n: int)
    | MStr(s: string)
    | MArr(items: seq<Meaning>)
    | MObj(members: map<string, Meaning>)

  /** What a value says, without the order of its members. */
  function MeaningOf(v: Value): Option<Meaning> {
    match v
    case Null => Some(MNull)
    case Undefined => None
    case Bool(b) => Some(MBool(b))
    case Num(n) => Some(MNum(n))
    case BigInt(n) => Some(MStr(Decimal(n)))
    case Str(s) => Some(MStr(s))
    case Arr(items) =>
      (match ItemsMeaning(items)
       case None => None
       case Some(ms) => Some(MArr(ms)))
    case Obj(ms) =>
      (match MembersMeaning(ms)
       case None => None
       case Some(m) => Some(MObj(m)))
  }

  function ItemsMeaning(items: Items): Option<seq<Meaning>> {
    match items
    case NoItems => Some([])
    case Item(head, tail) =>
      match (MeaningOf(head), ItemsMeaning(tail))
      case (Some(x), Some(xs)) => Some([x] + xs)
      case _ => None
  }

  /** The map with one more binding, unless the member is `undefined` or the prototype. */
  function Bind(key: string, undef: bool, x: Option<Meaning>, m: Option<map<string, Meaning>>)
    : Option<map<string, Meaning>>
  {
    if m.None? then None
    else if undef then m
    else if x.None? then None
    else if key == PROTO then m
    else Some(m.value[key := x.value])
  }

  function MembersMeaning(ms: Members): Option<map<string, Meaning>> {
    match ms
    case NoMembers => Some(map[])
    case Member(key, v, tail) =>
      if HasKey(tail, key) then MembersMeaning(tail)
      else Bind(key, v.Undefined?, MeaningOf(v), MembersMeaning(tail))
  }

  // ------------------------------------------- sorting keeps the meaning

  lemma {:induction false} AboveAll(bound: string, ms: Members, key: string)
    requires Above(bound, ms) && HasKey(ms, key)
    ensures Less(bound, key)
    decreases ms
  {
    if ms.key == key {
    } else {
      AboveAll(ms.key, ms.tail, key);
      LessTransitive(bound, ms.key, key);
    }
  }

  lemma AboveMissing(bound: string, ms: Members)
    requires Above(bound, ms)
    ensures !HasKey(ms, bound)
  {
    if HasKey(ms, bound) {
      AboveAll(bound, ms, bound);
      LessTotal(bound, bound);
    }
  }

  lemma AboveWeaker(a: string, b: string, ms: Members)
    requires Less(a, b) && Above(b, ms)
    ensures Above(a, ms)
  {
    if ms.Member? { LessTransitive(a, b, ms.key); }
  }

  lemma {:induction false} InsertSorted(key: string, v: Value, ms: Members)
    requires StrictlySorted(ms)
    ensures StrictlySorted(Insert(key, v, ms))
    ensures forall k :: HasKey(Insert(key, v, ms), k) <==> k == key || HasKey(ms, k)
    ensures forall b :: Above(b, ms) && Less(b, key) ==> Above(b, Insert(key, v, ms))
    ensures MembersMeaning(Insert(key, v, ms)) ==
              if HasKey(ms, key) then MembersMeaning(ms)
              else Bind(key, v.Undefined?, MeaningOf(v), MembersMeaning(ms))
  {
    if ms.Member? && key != ms.key {
      LessTotal(key, ms.key);
      if Less(key, ms.key) {
        AboveWeaker(key, ms.key, ms.tail);
        AboveMissing(key, ms);
      } else {
        InsertSorted(key, v, ms.tail);
        AboveMissing(ms.key, ms.tail);
        if !HasKey(ms, key) {
          BindCommutes(key, v.Undefined?, MeaningOf(v), ms.key, ms.value.Undefined?, MeaningOf(ms.value),
              MembersMeaning(ms.tail));
        }
      }
    }
  }

  lemma BindCommutes(j: string, uj: bool, x: Option<Meaning>, k: string, uk: bool, y: Option<Meaning>,
                     m: Option<map<string, Meaning>>)
    requires j != k
    ensures Bind(j, uj, x, Bind(k, uk, y, m)) == Bind(k, uk, y, Bind(j, uj, x, m))
  {
    if m.Some? && x.Some? && y.Some? {
      assert m.value[j := x.value][k := y.value] == m.value[k := y.value][j := x.value];
    }
  }

  lemma {:induction false} SortedMeaning(ms: Members)
    ensures StrictlySorted(Sorted(ms))
    ensures MembersMeaning(Sorted(ms)) == MembersMeaning(ms)
    ensures forall k :: HasKey(Sorted(ms), k) <==> HasKey(ms, k)
  {
    if ms.NoMembers? {
    } else {
      SortedMeaning(ms.tail);
      InsertSorted(ms.key, ms.value, Sorted(ms.tail));
    }
  }

  // --------------------------------------- canonical values keep meaning

  /** A value `Canonical` returns: JSON, every object sorted, no prototype member. */
  predicate IsCanonical(v: Value) {
    match v
    case Undefined => false
    case BigInt(_) => false
    case Arr(items) => ItemsAreCanonical(items)
    case Obj(ms) => StrictlySorted(ms) && MembersAreCanonical(ms)
    case _ => true
  }

  predicate ItemsAreCanonical(items: Items) {
    items.Item? ==> IsCanonical(items.head) && ItemsAreCanonical(items.tail)
  }

  predicate MembersAreCanonical(ms: Members) {
    ms.Member? ==> ms.key != PROTO && IsCanonical(ms.value) && MembersAreCanonical(ms.tail)
  }

  lemma {:induction false} CanonicalIsJson(v: Value)
    requires IsCanonical(v)
    ensures IsJson(v)
  {
    match v {
      case Arr(items) => CanonicalItemsAreJson(items);
      case Obj(ms) => CanonicalMembersAreJson(ms);
      case _ =>
    }
  }

  lemma {:induction false} CanonicalItemsAreJson(items: Items)
    requires ItemsAreCanonical(items)
    ensures ItemsAreJson(items)
  {
    if items.NoItems? {
    } else {
      CanonicalIsJson(items.head);
      CanonicalItemsAreJson(items.tail);
    }
  }

  lemma {:induction false} CanonicalMembersAreJson(ms: Members)
    requires MembersAreCanonical(ms)
    ensures MembersAreJson(ms)
  {
    if ms.NoMembers? {
    } else {
      CanonicalIsJson(ms.value);
      CanonicalMembersAreJson(ms.tail);
    }
  }

  /** Canonicalising succeeds exactly when there is a meaning, and keeps it. */
  lemma {:induction false} CanonicalKeepsMeaning(v: Value)
    ensures Canonical(v).Some? <==> MeaningOf(v).Some?
    ensures Canonical(v).Some? ==> IsCanonical(Canonical(v).value) && MeaningOf(Canonical(v).value) == MeaningOf(v)
    decreases Size(v), 1
  {
    match v {
      case Arr(items) => CanonicalItemsKeepMeaning(items);
      case Obj(ms) =>
        SortedSize(ms);
        SortedMeaning(ms);
        CanonicalMembersKeepMeaning(Sorted(ms));
      case _ =>
    }
  }

  lemma {:induction false} CanonicalItemsKeepMeaning(items: Items)
    ensures CanonicalItems(items).Some? <==> ItemsMeaning(items).Some?
    ensures CanonicalItems(items).Some? ==>
              ItemsAreCanonical(CanonicalItems(items).value)
                  && ItemsMeaning(CanonicalItems(items).value) == ItemsMeaning(items)
    decreases ItemsSize(items), 0
  {
    if items.NoItems? {
    } else {
      CanonicalKeepsMeaning(items.head);
      CanonicalItemsKeepMeaning(items.tail);
    }
  }

  lemma {:induction false} CanonicalMembersKeepMeaning(ms: Members)
    requires StrictlySorted(ms)
    ensures CanonicalMembers(ms).Some? <==> MembersMeaning(ms).Some?
    ensures CanonicalMembers(ms).Some? ==>
              var out := CanonicalMembers(ms).value;
              && StrictlySorted(out) && MembersAreCanonical(out)
              && MembersMeaning(out) == MembersMeaning(ms)
              && forall b :: Above(b, ms) ==> Above(b, out)
    decreases MembersSize(ms), 0
  {
    if ms.NoMembers? {
    } else {
      CanonicalKeepsMeaning(ms.value);
      CanonicalMembersKeepMeaning(ms.tail);
      AboveMissing(ms.key, ms.tail);
      forall b | Above(b, ms)
        ensures Above(b, ms.tail)
      {
        AboveWeaker(b, ms.key, ms.tail);
      }
      if CanonicalMembers(ms.tail).Some? {
        AboveMissing(ms.key, CanonicalMembers(ms.tail).value);
      }
    }
  }

  // ---------------------------------------- canonical values are unique

  /** The keys of the map are the keys of the list. */
  lemma {:induction false} CanonicalKeys(ms: Members)
    requires StrictlySorted(ms) && MembersAreCanonical(ms) && MembersMeaning(ms).Some?
    ensures forall k :: k in MembersMeaning(ms).value <==> HasKey(ms, k)
  {
    if ms.NoMembers? {
    } else {
      AboveMissing(ms.key, ms.tail);
      CanonicalKeys(ms.tail);
    }
  }

  lemma {:induction false} MeaningInjective(v: Value, w: Value)
    requires IsCanonical(v) && IsCanonical(w)
    requires MeaningOf(v) == MeaningOf(w) && MeaningOf(v).Some?
    ensures v == w
  {
    if v.Arr? && w.Arr? {
      ItemsMeaningInjective(v.items, w.items);
    } else if v.Obj? && w.Obj? {
      MembersMeaningInjective(v.members, w.members);
    }
  }

  lemma {:induction false} ItemsMeaningInjective(a: Items, b: Items)
    requires ItemsAreCanonical(a) && ItemsAreCanonical(b)
    requires ItemsMeaning(a) == ItemsMeaning(b) && ItemsMeaning(a).Some?
    ensures a == b
  {
    if a.Item? && b.Item? {
      var xs := ItemsMeaning(a).value;
      assert xs[0] == MeaningOf(a.head).value == MeaningOf(b.head).value;
      assert xs[1..] == ItemsMeaning(a.tail).value == ItemsMeaning(b.tail).value;
      MeaningInjective(a.head, b.head);
      ItemsMeaningInjective(a.tail, b.tail);
    }
  }

  lemma {:induction false} MembersMeaningInjective(a: Members, b: Members)
    requires StrictlySorted(a) && StrictlySorted(b) && MembersAreCanonical(a) && MembersAreCanonical(b)
    requires MembersMeaning(a) == MembersMeaning(b) && MembersMeaning(a).Some?
    ensures a == b
  {
    CanonicalKeys(a);
    CanonicalKeys(b);
    assert a.Member? ==> HasKey(a, a.key);
    assert b.Member? ==> HasKey(b, b.key);
    if a.Member? && b.Member? {
      assert HasKey(b, a.key) && HasKey(a, b.key);
      if a.key != b.key {
        AboveAll(b.key, b.tail, a.key);
        AboveAll(a.key, a.tail, b.key);
        LessTotal(a.key, b.key);
      }
      AboveMissing(a.key, a.tail);
      AboveMissing(b.key, b.tail);
      CanonicalKeys(a.tail);
      CanonicalKeys(b.tail);
      var m, s, t := MembersMeaning(a).value, MembersMeaning(a.tail).value, MembersMeaning(b.tail).value;
      assert m[a.key] == MeaningOf(a.value).value == MeaningOf(b.value).value;
      assert s == m - {a.key} == t;
      MeaningInjective(a.value, b.value);
      MembersMeaningInjective(a.tail, b.tail);
    }
  }

  // ---------------------------------------------------------------- bytes

  /** `canonicalJson`. */
  function CanonicalJson(v: Value): (text: Option<string>) {
    match Canonical(v)
    case None => None
    case Some(c) =>
      CanonicalKeepsMeaning(v);
      CanonicalIsJson(c);
      Some(Stringify(c, ""))
  }

  /**
   * The bytes are the same exactly when the meaning is: order of members,
   * `undefined` members and bigints printed as strings are all that is lost.
   */
  lemma SameBytesSameMeaning(v: Value, w: Value)
    ensures CanonicalJson(v).Some? <==> MeaningOf(v).Some?
    ensures CanonicalJson(v).Some? && CanonicalJson(w).Some? ==>
              (CanonicalJson(v) == CanonicalJson(w) <==> MeaningOf(v) == MeaningOf(w))
  {
    CanonicalKeepsMeaning(v);
    CanonicalKeepsMeaning(w);
    if CanonicalJson(v).Some? && CanonicalJson(w).Some? {
      var c, d := Canonical(v).value, Canonical(w).value;
      CanonicalIsJson(c);
      CanonicalIsJson(d);
      if CanonicalJson(v) == CanonicalJson(w) {
        StringifyInjective(c, d);
      }
      if MeaningOf(v) == MeaningOf(w) {
        MeaningInjective(c, d);
      }
    }
  }

  /** The canonical text parses back to the canonical value. */
  lemma CanonicalJsonParses(v: Value)
    requires CanonicalJson(v).Some?
    ensures Parse(CanonicalJson(v).value) == Canonical(v)
    ensures MeaningOf(Parse(CanonicalJson(v).value).value) == MeaningOf(v)
  {
    CanonicalKeepsMeaning(v);
    CanonicalIsJson(Canonical(v).value);
    StringifyParse(Canonical(v).value, "");
  }

  /** What `object[key]` reads: the last member of that name, or `undefined`. */
  function Find(ms: Members, key: string): Value {
    match ms
    case NoMembers => Undefined
    case Member(k, v, tail) => if k == key && !HasKey(tail, key) then v else Find(tail, key)
  }

  /** Reading `key` gives something that cannot be canonicalised. */
  predicate Unreadable(ms: Members, key: string) {
    !Find(ms, key).Undefined? && MeaningOf(Find(ms, key)).None?
  }

  lemma {:induction false} FindMissing(ms: Members, key: string)
    requires !HasKey(ms, key)
    ensures Find(ms, key).Undefined?
  {
    if ms.NoMembers? {
    } else {
      FindMissing(ms.tail, key);
    }
  }

  /** The map binds exactly what can be read, whatever the order of the members. */
  lemma {:induction false} MeaningByLookup(ms: Members, key: string)
    requires MembersMeaning(ms).Some?
    ensures !Unreadable(ms, key)
    ensures (if Find(ms, key).Undefined? || key == PROTO then None else MeaningOf(Find(ms, key)))
         == (if key in MembersMeaning(ms).value then Some(MembersMeaning(ms).value[key]) else None)
  {
    if ms.NoMembers? {
    } else {
      MeaningByLookup(ms.tail, key);
      if !HasKey(ms.tail, ms.key) { FindMissing(ms.tail, ms.key); }
    }
  }

  lemma {:induction false} UnreadableKey(ms: Members) returns (key: string)
    requires MembersMeaning(ms).None?
    ensures Unreadable(ms, key)
  {
    if MembersMeaning(ms.tail).None? {
      key := UnreadableKey(ms.tail);
      if !HasKey(ms.tail, key) { FindMissing(ms.tail, key); }
    } else {
      key := ms.key;
    }
  }

  /**
   * Objects whose members read the same have the same bytes. So neither the
   * order of the members nor absent against `undefined` can show.
   */
  lemma SameLookupsSameBytes(a: Members, b: Members)
    requires forall k :: Find(a, k) == Find(b, k)
    ensures CanonicalJson(Obj(a)) == CanonicalJson(Obj(b))
  {
    SameLookupsSameMeaning(a, b);
    SameBytesSameMeaning(Obj(a), Obj(b));
    SameBytesSameMeaning(Obj(b), Obj(a));
  }

  lemma SameLookupsSameMeaning(a: Members, b: Members)
    requires forall k :: Find(a, k) == Find(b, k)
    ensures MembersMeaning(a) == MembersMeaning(b)
  {
    if MembersMeaning(a).None? {
      var k := UnreadableKey(a);
      if MembersMeaning(b).Some? { MeaningByLookup(b, k); }
    } else if MembersMeaning(b).None? {
      var k := UnreadableKey(b);
      MeaningByLookup(a, k);
    } else {
      var m, n := MembersMeaning(a).value, MembersMeaning(b).value;
      forall k
        ensures (k in m <==> k in n) && (k in m ==> m[k] == n[k])
      {
        MeaningByLookup(a, k);
        MeaningByLookup(b, k);
      }
      assert m == n;
    }
  }

  /** A member named `__proto__` leaves no mark on the bytes. */
  lemma ProtoIsInvisible(v: Value)
    requires MeaningOf(v).Some?
    ensures CanonicalJson(Obj(Member(PROTO, v, NoMembers))) == CanonicalJson(Obj(NoMembers))
  {
    var a, b := Member(PROTO, v, NoMembers), NoMembers;
    assert MembersMeaning(b) == Some(map[]);
    assert MembersMeaning(a) == Bind(PROTO, v.Undefined?, MeaningOf(v), Some(map[])) == Some(map[]);
    assert MeaningOf(Obj(a)) == MeaningOf(Obj(b)) == Some(MObj(map[]));
    SameBytesSameMeaning(Obj(a), Obj(b));
    SameBytesSameMeaning(Obj(b), Obj(a));
  }

  // ------------------------------------------------------ written to disk

  /**
   * The JSON value `JSON.stringify(v, bigints)` prints: bigints as decimal
   * strings, `undefined` members dropped, `undefined` elements as `null`.
   */
  function Plain(v: Value): (r: Value)
    ensures IsJson(r)
  {
    match v
    case Undefined => Null
    case BigInt(n) => Str(Decimal(n))
    case Arr(items) => Arr(PlainItems(items))
    case Obj(ms) => Obj(PlainMembers(ms))
    case _ => v
  }

  function PlainItems(items: Items): (r: Items)
    ensures ItemsAreJson(r)
  {
    match items
    case NoItems => NoItems
    case Item(head, tail) => Item(Plain(head), PlainItems(tail))
  }

  function PlainMembers(ms: Members): (r: Members)
    ensures MembersAreJson(r)
  {
    match ms
    case NoMembers => NoMembers
    case Member(key, v, tail) =>
      if v.Undefined? || HasKey(tail, key) then PlainMembers(tail) else Member(key, Plain(v), PlainMembers(tail))
  }

  /** Writing and reading back changes no meaning, so no hash. */
  lemma {:induction false} PlainKeepsMeaning(v: Value)
    requires MeaningOf(v).Some?
    ensures MeaningOf(Plain(v)) == MeaningOf(v)
  {
    match v {
      case Arr(items) => PlainItemsKeepMeaning(items);
      case Obj(ms) => PlainMembersKeepMeaning(ms);
      case _ =>
    }
  }

  lemma {:induction false} PlainItemsKeepMeaning(items: Items)
    requires ItemsMeaning(items).Some?
    ensures ItemsMeaning(PlainItems(items)) == ItemsMeaning(items)
  {
    if items.NoItems? {
    } else {
      PlainKeepsMeaning(items.head);
      PlainItemsKeepMeaning(items.tail);
    }
  }

  lemma {:induction false} PlainMembersKeepMeaning(ms: Members)
    requires MembersMeaning(ms).Some?
    ensures MembersMeaning(PlainMembers(ms)) == MembersMeaning(ms)
    ensures forall k :: HasKey(PlainMembers(ms), k) ==> HasKey(ms, k)
  {
    if ms.NoMembers? {
    } else {
      PlainMembersKeepMeaning(ms.tail);
      if !ms.value.Undefined? && !HasKey(ms.tail, ms.key) {
        PlainKeepsMeaning(ms.value);
      }
    }
  }

  // -------------------------------------------------------------- hashing

  /** The bytes `hashPayload` hashes. */
  function PayloadBytes(v: Value): Option<Bytes> {
    match CanonicalJson(v)
    case None => None
    case Some(text) => Some(Utf8(text))
  }

  /** The hashed bytes are the same exactly when the meaning is. */
  lemma SamePayloadSameMeaning(v: Value, w: Value)
    requires MeaningOf(v).Some? && MeaningOf(w).Some?
    ensures PayloadBytes(v).Some? && PayloadBytes(w).Some?
    ensures PayloadBytes(v) == PayloadBytes(w) <==> MeaningOf(v) == MeaningOf(w)
  {
    SameBytesSameMeaning(v, w);
    SameBytesSameMeaning(w, v);
    if PayloadBytes(v) == PayloadBytes(w) {
      Utf8Injective(CanonicalJson(v).value, CanonicalJson(w).value);
    }
  }

  // ------------------------------------------------------- ascending order

  /** `a` is a proper prefix of `b`, or has the smaller character where the two first differ. */
  predicate Precedes(a: string, b: string) {
    || (|a| < |b| && a == b[..|a|])
    || exists i :: 0 <= i < |a| && i < |b| && a[..i] == b[..i] && a[i] < b[i]
  }

  lemma {:induction false} LessPrecedes(a: string, b: string)
    requires Less(a, b)
    ensures Precedes(a, b)
  {
    if a != "" && a[0] == b[0] {
      LessPrecedes(a[1..], b[1..]);
      var c, d := a[1..], b[1..];
      if |c| < |d| && c == d[..|c|] {
        assert a == [a[0]] + c && b[..|a|] == [b[0]] + d[..|c|];
      } else {
        var i :| 0 <= i < |c| && i < |d| && c[..i] == d[..i] && c[i] < d[i];
        assert a[..i + 1] == [a[0]] + c[..i] && b[..i + 1] == [b[0]] + d[..i];
        assert a[i + 1] < b[i + 1];
      }
    } else if a != "" {
      assert a[..0] == b[..0] && a[0] < b[0];
    } else {
      assert a == b[..0];
    }
  }

  /** The keys of an object, in the order they are printed. */
  function KeyList(ms: Members): seq<string> {
    match ms
    case NoMembers => []
    case Member(key, _, tail) => [key] + KeyList(tail)
  }

  /** At every depth, each key precedes the ones after it. */
  ghost predicate Ascends(v: Value) {
    match v
    case Arr(items) => ItemsAscend(items)
    case Obj(ms) =>
      && (forall i, j :: 0 <= i < j < |KeyList(ms)| ==> Precedes(KeyList(ms)[i], KeyList(ms)[j]))
      && MembersAscend(ms)
    case _ => true
  }

  ghost predicate ItemsAscend(items: Items) {
    items.Item? ==> Ascends(items.head) && ItemsAscend(items.tail)
  }

  ghost predicate MembersAscend(ms: Members) {
    ms.Member? ==> Ascends(ms.value) && MembersAscend(ms.tail)
  }

  lemma {:induction false} AboveKeys(bound: string, ms: Members)
    requires Above(bound, ms)
    ensures forall k :: k in KeyList(ms) ==> Less(bound, k)
    decreases ms
  {
    if ms.NoMembers? {
    } else {
      AboveKeys(ms.key, ms.tail);
      forall k | k in KeyList(ms.tail)
        ensures Less(bound, k)
      {
        LessTransitive(bound, ms.key, k);
      }
    }
  }

  lemma {:induction false} SortedAscends(ms: Members)
    requires StrictlySorted(ms)
    ensures forall i, j :: 0 <= i < j < |KeyList(ms)| ==> Precedes(KeyList(ms)[i], KeyList(ms)[j])
  {
    hide Precedes;
    if ms.NoMembers? {
    } else {
      SortedAscends(ms.tail);
      AboveKeys(ms.key, ms.tail);
      forall j | 0 < j < |KeyList(ms)|
        ensures Precedes(ms.key, KeyList(ms)[j])
      {
        assert KeyList(ms)[j] == KeyList(ms.tail)[j - 1];
        LessPrecedes(ms.key, KeyList(ms)[j]);
      }
    }
  }

  lemma {:induction false} CanonicalIsAscending(v: Value)
    requires IsCanonical(v)
    ensures Ascends(v)
  {
    match v {
      case Arr(items) => ItemsAreAscending(items);
      case Obj(ms) =>
        SortedAscends(ms);
        MembersAreAscending(ms);
      case _ =>
    }
  }

  lemma {:induction false} ItemsAreAscending(items: Items)
    requires ItemsAreCanonical(items)
    ensures ItemsAscend(items)
  {
    if items.NoItems? {
    } else {
      CanonicalIsAscending(items.head);
      ItemsAreAscending(items.tail);
    }
  }

  lemma {:induction false} MembersAreAscending(ms: Members)
    requires MembersAreCanonical(ms)
    ensures MembersAscend(ms)
  {
    if ms.NoMembers? {
    } else {
      CanonicalIsAscending(ms.value);
      MembersAreAscending(ms.tail);
    }
  }

  /** What is hashed lists the keys of every object in ascending order, at every depth. */
  lemma CanonicalAscends(v: Value)
    requires Canonical(v).Some?
    ensures Ascends(Canonical(v).value)
  {
    CanonicalKeepsMeaning(v);
    CanonicalIsAscending(Canonical(v).value);
  }
}
