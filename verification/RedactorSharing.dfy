/** How the redactor treats containers that are reached more than once. */
module RedactorSharing {
  import opened Prelude
  import opened Redactor

  // ---------------------------------------------------------------- each container at most once

  function Parts(copy: Copy): nat {
    match copy
    case CArray(_, items) => |items|
    case CObject(_, entries) => |entries|
    case _ => 0
  }

  function Part(copy: Copy, i: nat): (part: Copy)
    requires i < Parts(copy)
    ensures part < copy
  {
    if copy.CArray? then copy.items[i] else copy.entries[i].copy
  }

  /** How often a copy shows the container r expanded. */
  function Expansions(copy: Copy, r: Ref): nat
    decreases copy, Parts(copy) + 1
  {
    (if (copy.CArray? || copy.CObject?) && copy.of == r then 1 else 0) + PartExpansions(copy, Parts(copy), r)
  }

  function PartExpansions(copy: Copy, n: nat, r: Ref): nat
    requires n <= Parts(copy)
    decreases copy, n
  {
    if n == 0 then 0 else PartExpansions(copy, n - 1, r) + Expansions(Part(copy, n - 1), r)
  }

  function In(seen: set<Ref>, r: Ref): nat {
    if r in seen then 1 else 0
  }

  lemma {:induction false} SameParts(a: Copy, b: Copy, n: nat, r: Ref)
    requires n <= Parts(a) && n <= Parts(b) && forall i :: 0 <= i < n ==> Part(a, i) == Part(b, i)
    ensures PartExpansions(a, n, r) == PartExpansions(b, n, r)
  {
    if n > 0 { SameParts(a, b, n - 1, r); }
  }

  lemma LeafExpands(copy: Copy, r: Ref)
    requires !copy.CArray? && !copy.CObject?
    ensures Expansions(copy, r) == 0
  {
  }

  lemma ContainerExpands(copy: Copy, r: Ref)
    requires copy.CArray? || copy.CObject?
    ensures Expansions(copy, r) == In({copy.of}, r) + PartExpansions(copy, Parts(copy), r)
  {
  }

  /** The walk never forgets a container, and expands r only if r is new, and then once. */
  lemma {:induction false} ExpandsOnce(rules: Rules, heap: Heap, v: Value, depth: nat, seen: set<Ref>, r: Ref)
    ensures var (copy, seen') := Redact(rules, heap, v, depth, seen);
            seen <= seen' && Expansions(copy, r) + In(seen, r) <= In(seen', r)
    decreases Left(depth), 1
  {
    var (copy, _) := Redact(rules, heap, v, depth, seen);
    if v.Reference? && depth < MAX_REDACTION_DEPTH && v.ref !in seen && heap(v.ref).Array? {
      ItemsExpandOnce(rules, heap, v.ref, heap(v.ref).items, |heap(v.ref).items|, depth + 1, seen + {v.ref}, r);
      ContainerExpands(copy, r);
    } else if v.Reference? && depth < MAX_REDACTION_DEPTH && v.ref !in seen && heap(v.ref).Object? {
      EntriesExpandOnce(rules, heap, v.ref, heap(v.ref).entries, |heap(v.ref).entries|, depth + 1, seen + {v.ref}, r);
      ContainerExpands(copy, r);
    } else {
      LeafExpands(copy, r);
    }
  }

  lemma {:induction false} ItemsExpandOnce(
    rules: Rules, heap: Heap, of: Ref, items: seq<Value>, n: nat, depth: nat, seen: set<Ref>, r: Ref)
    requires n <= |items|
    ensures var (copies, seen') := RedactItems(rules, heap, items, n, depth, seen);
            && |copies| == n && seen <= seen'
            && PartExpansions(CArray(of, copies), n, r) + In(seen, r) <= In(seen', r)
    decreases Left(depth), n + 1
  {
    if n > 0 {
      var (copies, seen1) := RedactItems(rules, heap, items, n - 1, depth, seen);
      var (copy, _) := Redact(rules, heap, items[n - 1], depth, seen1);
      ItemsExpandOnce(rules, heap, of, items, n - 1, depth, seen, r);
      ExpandsOnce(rules, heap, items[n - 1], depth, seen1, r);
      SameParts(CArray(of, copies), CArray(of, copies + [copy]), n - 1, r);
    }
  }

  lemma {:induction false} EntriesExpandOnce(
    rules: Rules, heap: Heap, of: Ref, entries: seq<Entry>, n: nat, depth: nat, seen: set<Ref>, r: Ref)
    requires n <= |entries|
    ensures var (copies, seen') := RedactEntries(rules, heap, entries, n, depth, seen);
            && seen <= seen'
            && PartExpansions(CObject(of, copies), |copies|, r) + In(seen, r) <= In(seen', r)
    decreases Left(depth), n + 1
  {
    if n > 0 {
      var (copies, seen1) := RedactEntries(rules, heap, entries, n - 1, depth, seen);
      var (copy, _) := RedactEntry(rules, heap, entries[n - 1], depth, seen1);
      EntriesExpandOnce(rules, heap, of, entries, n - 1, depth, seen, r);
      ExpandsOnce(rules, heap, entries[n - 1].value, depth, seen1, r);
      LeafExpands(CText("[REDACTED]"), r);
      PutExpands(of, copies, entries[n - 1].key, copy, r);
    }
  }

  lemma PutExpands(of: Ref, copies: seq<CopiedEntry>, key: string, copy: Copy, r: Ref)
    ensures var copies' := Put(copies, key, copy);
            PartExpansions(CObject(of, copies'), |copies'|, r) <=
            PartExpansions(CObject(of, copies), |copies|, r) + Expansions(copy, r)
  {
    var copies' := Put(copies, key, copy);
    SameParts(CObject(of, copies), CObject(of, copies'), |copies|, r);
  }

  /** However a graph shares and loops, its redacted copy shows each container at most once. */
  lemma EachContainerOnce(rules: Rules, heap: Heap, v: Value, r: Ref)
    ensures Expansions(Redact(rules, heap, v, 0, {}).0, r) <= 1
  {
    ExpandsOnce(rules, heap, v, 0, {}, r);
  }

  // ---------------------------------------------------------------- the plain copy

  /** The same copy, but every container is expanded wherever it is reached. */
  function Plain(rules: Rules, heap: Heap, v: Value, depth: nat): Copy
    decreases Left(depth), 0
  {
    match v
    case Undefined => CUndefined
    case Null => CNull
    case Text(s) => CText(rules.redactString(s))
    case Scalar(n) => CScalar(n)
    case Reference(r) =>
      if depth >= MAX_REDACTION_DEPTH then CText("[MaxDepth]")
      else
        match heap(r)
        case Error(name, message, stack) =>
          CError(name, rules.redactString(message),
                 if stack == None || stack == Some("") then None else Some(rules.redactString(stack.value)))
        case Array(items) => CArray(r, PlainItems(rules, heap, items, |items|, depth + 1))
        case Object(entries) => CObject(r, PlainEntries(rules, heap, entries, |entries|, depth + 1))
  }

  function PlainItems(rules: Rules, heap: Heap, items: seq<Value>, n: nat, depth: nat): seq<Copy>
    requires n <= |items|
    decreases Left(depth), n + 1
  {
    if n == 0 then []
    else PlainItems(rules, heap, items, n - 1, depth) + [Plain(rules, heap, items[n - 1], depth)]
  }

  function PlainEntries(rules: Rules, heap: Heap, entries: seq<Entry>, n: nat, depth: nat): seq<CopiedEntry>
    requires n <= |entries|
    decreases Left(depth), n + 1
  {
    if n == 0 then []
    else Put(PlainEntries(rules, heap, entries, n - 1, depth), entries[n - 1].key,
             if rules.sensitive(entries[n - 1].key) then CText("[REDACTED]")
             else Plain(rules, heap, entries[n - 1].value, depth))
  }

  /** How often the plain copy enters the container r. */
  function Visits(rules: Rules, heap: Heap, v: Value, depth: nat, r: Ref): nat
    decreases Left(depth), 0
  {
    if !v.Reference? || depth >= MAX_REDACTION_DEPTH then 0
    else
      match heap(v.ref)
      case Error(_, _, _) => 0
      case Array(items) => In({v.ref}, r) + ItemVisits(rules, heap, items, |items|, depth + 1, r)
      case Object(entries) => In({v.ref}, r) + EntryVisits(rules, heap, entries, |entries|, depth + 1, r)
  }

  function ItemVisits(rules: Rules, heap: Heap, items: seq<Value>, n: nat, depth: nat, r: Ref): nat
    requires n <= |items|
    decreases Left(depth), n + 1
  {
    if n == 0 then 0
    else ItemVisits(rules, heap, items, n - 1, depth, r) + Visits(rules, heap, items[n - 1], depth, r)
  }

  function EntryVisits(rules: Rules, heap: Heap, entries: seq<Entry>, n: nat, depth: nat, r: Ref): nat
    requires n <= |entries|
    decreases Left(depth), n + 1
  {
    if n == 0 then 0
    else EntryVisits(rules, heap, entries, n - 1, depth, r) +
         (if rules.sensitive(entries[n - 1].key) then 0 else Visits(rules, heap, entries[n - 1].value, depth, r))
  }

  /** No container is entered twice, nor one that was seen before. */
  ghost predicate Fresh(rules: Rules, heap: Heap, v: Value, depth: nat, seen: set<Ref>) {
    forall r {:trigger Visits(rules, heap, v, depth, r)} :: Visits(rules, heap, v, depth, r) + In(seen, r) <= 1
  }

  ghost predicate ItemsFresh(rules: Rules, heap: Heap, items: seq<Value>, n: nat, depth: nat, seen: set<Ref>)
    requires n <= |items|
  {
    forall r {:trigger ItemVisits(rules, heap, items, n, depth, r)} ::
      ItemVisits(rules, heap, items, n, depth, r) + In(seen, r) <= 1
  }

  ghost predicate EntriesFresh(rules: Rules, heap: Heap, entries: seq<Entry>, n: nat, depth: nat, seen: set<Ref>)
    requires n <= |entries|
  {
    forall r {:trigger EntryVisits(rules, heap, entries, n, depth, r)} ::
      EntryVisits(rules, heap, entries, n, depth, r) + In(seen, r) <= 1
  }

  predicate NoProto(node: Node) {
    node.Object? ==> forall i :: 0 <= i < |node.entries| ==> node.entries[i].key != "__proto__"
  }

  /** No container that is entered has a property named `__proto__`. */
  ghost predicate NoneProto(rules: Rules, heap: Heap, v: Value, depth: nat) {
    forall r {:trigger Visits(rules, heap, v, depth, r)} :: Visits(rules, heap, v, depth, r) > 0 ==> NoProto(heap(r))
  }

  ghost predicate ItemsNoneProto(rules: Rules, heap: Heap, items: seq<Value>, n: nat, depth: nat)
    requires n <= |items|
  {
    forall r {:trigger ItemVisits(rules, heap, items, n, depth, r)} ::
      ItemVisits(rules, heap, items, n, depth, r) > 0 ==> NoProto(heap(r))
  }

  ghost predicate EntriesNoneProto(rules: Rules, heap: Heap, entries: seq<Entry>, n: nat, depth: nat)
    requires n <= |entries|
  {
    forall r {:trigger EntryVisits(rules, heap, entries, n, depth, r)} ::
      EntryVisits(rules, heap, entries, n, depth, r) > 0 ==> NoProto(heap(r))
  }

  lemma VisitsArray(rules: Rules, heap: Heap, v: Value, depth: nat, seen: set<Ref>, items: seq<Value>)
    requires v.Reference? && depth < MAX_REDACTION_DEPTH && heap(v.ref) == Array(items) && v.ref !in seen
    ensures forall r {:trigger Visits(rules, heap, v, depth, r)}
                     {:trigger ItemVisits(rules, heap, items, |items|, depth + 1, r)} ::
              Visits(rules, heap, v, depth, r) + In(seen, r) ==
              ItemVisits(rules, heap, items, |items|, depth + 1, r) + In(seen + {v.ref}, r)
  {
  }

  lemma VisitsObject(rules: Rules, heap: Heap, v: Value, depth: nat, seen: set<Ref>, entries: seq<Entry>)
    requires v.Reference? && depth < MAX_REDACTION_DEPTH && heap(v.ref) == Object(entries) && v.ref !in seen
    ensures forall r {:trigger Visits(rules, heap, v, depth, r)}
                     {:trigger EntryVisits(rules, heap, entries, |entries|, depth + 1, r)} ::
              Visits(rules, heap, v, depth, r) + In(seen, r) ==
              EntryVisits(rules, heap, entries, |entries|, depth + 1, r) + In(seen + {v.ref}, r)
  {
  }

  lemma VisitsItem(rules: Rules, heap: Heap, items: seq<Value>, n: nat, depth: nat)
    requires 0 < n <= |items|
    ensures forall r {:trigger ItemVisits(rules, heap, items, n, depth, r)}
                     {:trigger ItemVisits(rules, heap, items, n - 1, depth, r)}
                     {:trigger Visits(rules, heap, items[n - 1], depth, r)} ::
              ItemVisits(rules, heap, items, n, depth, r) ==
              ItemVisits(rules, heap, items, n - 1, depth, r) + Visits(rules, heap, items[n - 1], depth, r)
  {
  }

  lemma VisitsEntry(rules: Rules, heap: Heap, entries: seq<Entry>, n: nat, depth: nat)
    requires 0 < n <= |entries|
    ensures forall r {:trigger EntryVisits(rules, heap, entries, n, depth, r)}
                     {:trigger EntryVisits(rules, heap, entries, n - 1, depth, r)}
                     {:trigger Visits(rules, heap, entries[n - 1].value, depth, r)} ::
              EntryVisits(rules, heap, entries, n, depth, r) ==
              EntryVisits(rules, heap, entries, n - 1, depth, r) +
              (if rules.sensitive(entries[n - 1].key) then 0
               else Visits(rules, heap, entries[n - 1].value, depth, r))
  {
  }

  lemma SameEnds<T>(a: seq<T>, x: T, b: seq<T>, y: T)
    ensures a + [x] == b + [y] ==> a == b && x == y
  {
    assert (a + [x])[..|a|] == a && (b + [y])[..|b|] == b;
    assert (a + [x])[|a|] == x && (b + [y])[|b|] == y;
  }

  lemma {:induction false} PlainIff(rules: Rules, heap: Heap, v: Value, depth: nat, seen: set<Ref>)
    ensures var (copy, seen') := Redact(rules, heap, v, depth, seen);
            && (Fresh(rules, heap, v, depth, seen) ==>
                  && copy == Plain(rules, heap, v, depth)
                  && forall r :: In(seen', r) == In(seen, r) + Visits(rules, heap, v, depth, r))
            && (NoneProto(rules, heap, v, depth) && copy == Plain(rules, heap, v, depth) ==>
                  Fresh(rules, heap, v, depth, seen))
    decreases Left(depth), 0
  {
    if v.Reference? && depth < MAX_REDACTION_DEPTH && !heap(v.ref).Error? {
      assert Visits(rules, heap, v, depth, v.ref) >= 1;
      if v.ref !in seen {
        match heap(v.ref)
        case Array(items) =>
          VisitsArray(rules, heap, v, depth, seen, items);
          ItemsPlainIff(rules, heap, items, |items|, depth + 1, seen + {v.ref});
        case Object(entries) =>
          VisitsObject(rules, heap, v, depth, seen, entries);
          EntriesPlainIff(rules, heap, entries, |entries|, depth + 1, seen + {v.ref});
      }
    }
  }

  lemma {:induction false} ItemsPlainIff(
    rules: Rules, heap: Heap, items: seq<Value>, n: nat, depth: nat, seen: set<Ref>)
    requires n <= |items|
    ensures var (copies, seen') := RedactItems(rules, heap, items, n, depth, seen);
            && (ItemsFresh(rules, heap, items, n, depth, seen) ==>
                  && copies == PlainItems(rules, heap, items, n, depth)
                  && forall r :: In(seen', r) == In(seen, r) + ItemVisits(rules, heap, items, n, depth, r))
            && (ItemsNoneProto(rules, heap, items, n, depth) && copies == PlainItems(rules, heap, items, n, depth) ==>
                  ItemsFresh(rules, heap, items, n, depth, seen))
    decreases Left(depth), n + 1
  {
    if n > 0 {
      var (copies, seen1) := RedactItems(rules, heap, items, n - 1, depth, seen);
      VisitsItem(rules, heap, items, n, depth);
      ItemsPlainIff(rules, heap, items, n - 1, depth, seen);
      PlainIff(rules, heap, items[n - 1], depth, seen1);
      var copy := Redact(rules, heap, items[n - 1], depth, seen1).0;
      SameEnds(copies, copy,
               PlainItems(rules, heap, items, n - 1, depth), Plain(rules, heap, items[n - 1], depth));
    }
  }

  lemma {:induction false} EntriesPlainIff(
    rules: Rules, heap: Heap, entries: seq<Entry>, n: nat, depth: nat, seen: set<Ref>)
    requires n <= |entries|
    ensures var (copies, seen') := RedactEntries(rules, heap, entries, n, depth, seen);
            && (EntriesFresh(rules, heap, entries, n, depth, seen) ==>
                  && copies == PlainEntries(rules, heap, entries, n, depth)
                  && forall r :: In(seen', r) == In(seen, r) + EntryVisits(rules, heap, entries, n, depth, r))
            && (EntriesNoneProto(rules, heap, entries, n, depth) &&
                (forall i :: 0 <= i < n ==> entries[i].key != "__proto__") &&
                copies == PlainEntries(rules, heap, entries, n, depth) ==>
                  EntriesFresh(rules, heap, entries, n, depth, seen))
    decreases Left(depth), n + 1
  {
    if n > 0 {
      var (copies, seen1) := RedactEntries(rules, heap, entries, n - 1, depth, seen);
      VisitsEntry(rules, heap, entries, n, depth);
      EntriesPlainIff(rules, heap, entries, n - 1, depth, seen);
      PlainIff(rules, heap, entries[n - 1].value, depth, seen1);
      var key, copy := entries[n - 1].key, RedactEntry(rules, heap, entries[n - 1], depth, seen1).0;
      var value := entries[n - 1].value;
      var plain := if rules.sensitive(key) then CText("[REDACTED]") else Plain(rules, heap, value, depth);
      SameEnds(copies, CopiedEntry(key, copy),
               PlainEntries(rules, heap, entries, n - 1, depth), CopiedEntry(key, plain));
    }
  }

  /**
   The redactor gives the plain depth-capped copy if no container is entered twice, however a
   second way to it comes about; if no container that is entered has a property named `__proto__`,
   that is the only case.
   */
  lemma PlainExactlyWithoutSharing(rules: Rules, heap: Heap, v: Value)
    ensures (forall r :: Visits(rules, heap, v, 0, r) <= 1) ==>
              Redact(rules, heap, v, 0, {}).0 == Plain(rules, heap, v, 0)
    ensures NoneProto(rules, heap, v, 0) && Redact(rules, heap, v, 0, {}).0 == Plain(rules, heap, v, 0) ==>
              forall r :: Visits(rules, heap, v, 0, r) <= 1
  {
    PlainIff(rules, heap, v, 0, {});
  }

  /** An array that holds the same empty array twice: there is no cycle, yet the second one is marked. */
  lemma SharedIsMarkedCircular(rules: Rules)
    ensures var heap: Heap := r => if r == 0 then Array([Reference(1), Reference(1)]) else Array([]);
            Redact(rules, heap, Reference(0), 0, {}).0 == CArray(0, [CArray(1, []), CText("[Circular]")])
  {
    var heap: Heap := r => if r == 0 then Array([Reference(1), Reference(1)]) else Array([]);
    var items, one := [Reference(1), Reference(1)], {} + {0};
    var two := one + {1};
    assert RedactItems(rules, heap, [], 0, 2, two) == ([], two);
    assert Redact(rules, heap, items[0], 1, one) == (CArray(1, []), two);
    assert RedactItems(rules, heap, items, 0, 1, one) == ([], one);
    assert RedactItems(rules, heap, items, 1, 1, one) == ([] + [CArray(1, [])], two);
    assert Redact(rules, heap, items[1], 1, two) == (CText("[Circular]"), two);
  }
}
