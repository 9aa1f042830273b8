/**
 The log redactor: a copy of an object graph, cyclic or shared, that hides what sensitive keys
 hold.  The graph is a heap of nodes; the walk threads the set of containers it has entered.
 */
module Redactor {
  import opened Prelude

  type Ref = nat

  /** Scalars are numbers, booleans, big integers, symbols and functions; they are copied as they are. */
  datatype Value = Undefined | Null | Text(s: string) | Scalar(n: int) | Reference(ref: Ref)

  datatype Entry = Entry(key: string, value: Value)

  /** An object has its own enumerable properties, as `Object.entries` lists them. */
  datatype Node =
    | Error(name: string, message: string, stack: Option<string>)
    | Array(items: seq<Value>)
    | Object(entries: seq<Entry>)

  type Heap = Ref -> Node

  datatype CopiedEntry = CopiedEntry(key: string, copy: Copy)

  /** A redacted value; copies of containers remember which container they are copies of. */
  datatype Copy =
    | CUndefined
    | CNull
    | CText(s: string)
    | CScalar(n: int)
    | CError(name: string, message: string, stack: Option<string>)
    | CArray(of: Ref, items: seq<Copy>)
    | CObject(of: Ref, entries: seq<CopiedEntry>)

  /** `redactString` and the pattern of sensitive keys. */
  datatype Rules = Rules(redactString: string -> string, sensitive: string -> bool)

  const MAX_REDACTION_DEPTH := 8
  const REDACTED := CText("[REDACTED]")
  const CIRCULAR := CText("[Circular]")
  const TOO_DEEP := CText("[MaxDepth]")
  const PROTO := "__proto__"

  function Left(depth: nat): nat {
    if depth >= MAX_REDACTION_DEPTH then 0 else MAX_REDACTION_DEPTH - depth
  }

  /** `redacted[key] = copy`; assigning to `__proto__` creates no property. */
  function Put(entries: seq<CopiedEntry>, key: string, copy: Copy): seq<CopiedEntry> {
    if key == PROTO then entries else entries + [CopiedEntry(key, copy)]
  }

  function CopyError(rules: Rules, e: Node): Copy
    requires e.Error?
  {
    CError(e.name, rules.redactString(e.message),
           if e.stack.Some? && e.stack.value != "" then Some(rules.redactString(e.stack.value)) else None)
  }

  // ---------------------------------------------------------------- the walk

  /** `redactValue`: the copy, and the containers entered so far. */
  function Redact(rules: Rules, heap: Heap, v: Value, depth: nat, seen: set<Ref>): (Copy, set<Ref>)
    decreases Left(depth), 0
  {
    match v
    case Undefined => (CUndefined, seen)
    case Null => (CNull, seen)
    case Text(s) => (CText(rules.redactString(s)), seen)
    case Scalar(n) => (CScalar(n), seen)
    case Reference(r) =>
      if depth >= MAX_REDACTION_DEPTH then (TOO_DEEP, seen)
      else
        match heap(r)
        case Error(_, _, _) => (CopyError(rules, heap(r)), seen)
        case Array(items) =>
          if r in seen then (CIRCULAR, seen)
          else
            var (copies, seen') := RedactItems(rules, heap, items, |items|, depth + 1, seen + {r});
            (CArray(r, copies), seen')
        case Object(entries) =>
          if r in seen then (CIRCULAR, seen)
          else
            var (copies, seen') := RedactEntries(rules, heap, entries, |entries|, depth + 1, seen + {r});
            (CObject(r, copies), seen')
  }

  /** The first n items, from left to right. */
  function RedactItems(rules: Rules, heap: Heap, items: seq<Value>, n: nat, depth: nat, seen: set<Ref>)
    : (seq<Copy>, set<Ref>)
    requires n <= |items|
    decreases Left(depth), n + 1
  {
    if n == 0 then ([], seen)
    else
      var (copies, seen1) := RedactItems(rules, heap, items, n - 1, depth, seen);
      var (copy, seen2) := Redact(rules, heap, items[n - 1], depth, seen1);
      (copies + [copy], seen2)
  }

  function RedactEntries(rules: Rules, heap: Heap, entries: seq<Entry>, n: nat, depth: nat, seen: set<Ref>)
    : (seq<CopiedEntry>, set<Ref>)
    requires n <= |entries|
    decreases Left(depth), n + 1
  {
    if n == 0 then ([], seen)
    else
      var (copies, seen1) := RedactEntries(rules, heap, entries, n - 1, depth, seen);
      var (copy, seen2) := RedactEntry(rules, heap, entries[n - 1], depth, seen1);
      (Put(copies, entries[n - 1].key, copy), seen2)
  }

  function RedactEntry(rules: Rules, heap: Heap, entry: Entry, depth: nat, seen: set<Ref>): (Copy, set<Ref>)
    decreases Left(depth), 1
  {
    if rules.sensitive(entry.key) then (REDACTED, seen) else Redact(rules, heap, entry.value, depth, seen)
  }

  /** The walk as the source writes it, over one set of seen containers that it updates. */
  class Walk {
    const rules: Rules
    const heap: Heap
    var seen: set<Ref>

    constructor (rules: Rules, heap: Heap)
      ensures this.rules == rules && this.heap == heap && seen == {}
    {
      this.rules, this.heap, seen := rules, heap, {};
    }

    method RedactValue(v: Value, depth: nat) returns (copy: Copy)
      modifies this
      ensures (copy, seen) == Redact(rules, heap, v, depth, old(seen))
      decreases Left(depth), 0
    {
      match v {
        case Undefined => return CUndefined;
        case Null => return CNull;
        case Text(s) => return CText(rules.redactString(s));
        case Scalar(n) => return CScalar(n);
        case Reference(r) =>
          if depth >= MAX_REDACTION_DEPTH {
            return TOO_DEEP;
          }
          var node := heap(r);
          if node.Error? {
            return CopyError(rules, node);
          }
          if r in seen {
            return CIRCULAR;
          }
          seen := seen + {r};
          if node.Array? {
            var copies := RedactArray(node.items, depth + 1);
            return CArray(r, copies);
          }
          var copies := RedactObject(node.entries, depth + 1);
          return CObject(r, copies);
      }
    }

    method RedactArray(items: seq<Value>, depth: nat) returns (copies: seq<Copy>)
      modifies this
      ensures (copies, seen) == RedactItems(rules, heap, items, |items|, depth, old(seen))
      decreases Left(depth), 1
    {
      copies := [];
      for i := 0 to |items|
        invariant (copies, seen) == RedactItems(rules, heap, items, i, depth, old(seen))
      {
        var copy := RedactValue(items[i], depth);
        copies := copies + [copy];
      }
    }

    method RedactObject(entries: seq<Entry>, depth: nat) returns (redacted: seq<CopiedEntry>)
      modifies this
      ensures (redacted, seen) == RedactEntries(rules, heap, entries, |entries|, depth, old(seen))
      decreases Left(depth), 1
    {
      redacted := [];
      for i := 0 to |entries|
        invariant (redacted, seen) == RedactEntries(rules, heap, entries, i, depth, old(seen))
      {
        var copy := REDACTED;
        if !rules.sensitive(entries[i].key) {
          copy := RedactValue(entries[i].value, depth);
        }
        redacted := Put(redacted, entries[i].key, copy);
      }
    }
  }

  /** `redactLogMetadata`. */
  method RedactLogMetadata(rules: Rules, heap: Heap, v: Value) returns (copy: Copy)
    ensures copy == Redact(rules, heap, v, 0, {}).0
  {
    var walk := new Walk(rules, heap);
    copy := walk.RedactValue(v, 0);
  }
}
