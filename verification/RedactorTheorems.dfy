/** What the redactor guarantees on every object graph. */
module RedactorTheorems {
  import opened Prelude
  import opened Redactor

  // ---------------------------------------------------------------- what a copy looks like

  /** The properties that survive being assigned: all but `__proto__`. */
  function Kept(entries: seq<Entry>, n: nat): seq<Entry>
    requires n <= |entries|
  {
    if n == 0 then []
    else if entries[n - 1].key == "__proto__" then Kept(entries, n - 1)
    else Kept(entries, n - 1) + [entries[n - 1]]
  }

  /**
   A copy of v with at most n levels of containers: strings are redacted, errors keep their name and
   show their message and stack redacted, every container keeps its length or its keys and every
   sensitive key hides its value.  Any container may be cut short by the circular marker.
   */
  predicate Mirrors(rules: Rules, heap: Heap, v: Value, copy: Copy, n: nat)
    decreases n, 0
  {
    match v
    case Undefined => copy == CUndefined
    case Null => copy == CNull
    case Text(s) => copy == CText(rules.redactString(s))
    case Scalar(k) => copy == CScalar(k)
    case Reference(r) =>
      if n == 0 then copy == CText("[MaxDepth]")
      else
        match heap(r)
        case Error(name, message, stack) =>
          && copy.CError? && copy.name == name
          && copy.message == rules.redactString(message)
          && (copy.stack == None <==> stack == None || stack == Some(""))
          && (copy.stack.Some? ==> stack.Some? && copy.stack.value == rules.redactString(stack.value))
        case Array(items) =>
          || copy == CText("[Circular]")
          || (copy.CArray? && copy.of == r && ItemsMirror(rules, heap, items, copy.items, n - 1))
        case Object(entries) =>
          || copy == CText("[Circular]")
          || (&& copy.CObject? && copy.of == r
              && EntriesMirror(rules, heap, Kept(entries, |entries|), copy.entries, n - 1))
  }

  predicate ItemsMirror(rules: Rules, heap: Heap, items: seq<Value>, copies: seq<Copy>, n: nat)
    decreases n, 1
  {
    && |copies| == |items|
    && forall i :: 0 <= i < |items| ==> Mirrors(rules, heap, items[i], copies[i], n)
  }

  predicate EntriesMirror(rules: Rules, heap: Heap, entries: seq<Entry>, copies: seq<CopiedEntry>, n: nat)
    decreases n, 1
  {
    && |copies| == |entries|
    && (forall i :: 0 <= i < |entries| ==> copies[i].key == entries[i].key)
    && (forall i :: 0 <= i < |entries| && rules.sensitive(entries[i].key) ==> copies[i].copy == CText("[REDACTED]"))
    && (forall i :: 0 <= i < |entries| && !rules.sensitive(entries[i].key) ==>
          Mirrors(rules, heap, entries[i].value, copies[i].copy, n))
  }

  lemma {:induction false} RedactMirrors(rules: Rules, heap: Heap, v: Value, depth: nat, seen: set<Ref>)
    ensures Mirrors(rules, heap, v, Redact(rules, heap, v, depth, seen).0, Left(depth))
    decreases Left(depth), 0
  {
    if v.Reference? && depth < MAX_REDACTION_DEPTH && v.ref !in seen {
      match heap(v.ref)
      case Error(_, _, _) =>
      case Array(items) =>
        ItemsAreMirrored(rules, heap, items, |items|, depth + 1, seen + {v.ref});
        assert items[..|items|] == items;
      case Object(entries) =>
        EntriesAreMirrored(rules, heap, entries, |entries|, depth + 1, seen + {v.ref});
    }
  }

  lemma {:induction false} ItemsAreMirrored(
    rules: Rules, heap: Heap, items: seq<Value>, n: nat, depth: nat, seen: set<Ref>)
    requires n <= |items|
    ensures ItemsMirror(rules, heap, items[..n], RedactItems(rules, heap, items, n, depth, seen).0, Left(depth))
    decreases Left(depth), n + 1
  {
    if n > 0 {
      var (_, seen1) := RedactItems(rules, heap, items, n - 1, depth, seen);
      ItemsAreMirrored(rules, heap, items, n - 1, depth, seen);
      RedactMirrors(rules, heap, items[n - 1], depth, seen1);
      assert items[..n] == items[..n - 1] + [items[n - 1]];
    }
  }

  lemma {:induction false} EntriesAreMirrored(
    rules: Rules, heap: Heap, entries: seq<Entry>, n: nat, depth: nat, seen: set<Ref>)
    requires n <= |entries|
    ensures var copies := RedactEntries(rules, heap, entries, n, depth, seen).0;
            EntriesMirror(rules, heap, Kept(entries, n), copies, Left(depth))
    decreases Left(depth), n + 1
  {
    if n > 0 {
      var (_, seen1) := RedactEntries(rules, heap, entries, n - 1, depth, seen);
      EntriesAreMirrored(rules, heap, entries, n - 1, depth, seen);
      RedactMirrors(rules, heap, entries[n - 1].value, depth, seen1);
    }
  }

  /** A property survives, with the keys in order, exactly if it is not `__proto__`. */
  lemma {:induction false} KeptExactly(entries: seq<Entry>, n: nat, entry: Entry)
    requires n <= |entries|
    ensures entry in Kept(entries, n) <==> entry in entries[..n] && entry.key != "__proto__"
    ensures |Kept(entries, n)| == n <==> forall i :: 0 <= i < n ==> entries[i].key != "__proto__"
    ensures |Kept(entries, n)| <= n
  {
    if n > 0 {
      KeptExactly(entries, n - 1, entry);
      assert entries[..n] == entries[..n - 1] + [entries[n - 1]];
    }
  }

  /** An object whose only property is named `__proto__` becomes an empty one. */
  lemma ProtoIsLost(rules: Rules)
    requires !rules.sensitive("__proto__")
    ensures var heap: Heap := r => Object([Entry("__proto__", Null)]);
            Redact(rules, heap, Reference(0), 0, {}).0 == CObject(0, [])
  {
    var heap: Heap := r => Object([Entry("__proto__", Null)]);
    var entries := [Entry("__proto__", Null)];
    assert RedactEntries(rules, heap, entries, 0, 1, {} + {0}) == ([], {} + {0});
    assert RedactEntries(rules, heap, entries, 1, 1, {} + {0}) == ([], {} + {0});
  }

  // ---------------------------------------------------------------- depth and sensitive keys

  /** At most n containers lie inside one another. */
  predicate NestsWithin(copy: Copy, n: nat) {
    match copy
    case CError(_, _, _) => n > 0
    case CArray(_, items) => n > 0 && forall i :: 0 <= i < |items| ==> NestsWithin(items[i], n - 1)
    case CObject(_, entries) => n > 0 && forall i :: 0 <= i < |entries| ==> NestsWithin(entries[i].copy, n - 1)
    case _ => true
  }

  /** At every level each sensitive key holds the redaction marker. */
  predicate HidesSensitive(rules: Rules, copy: Copy) {
    match copy
    case CArray(_, items) => forall i :: 0 <= i < |items| ==> HidesSensitive(rules, items[i])
    case CObject(_, entries) =>
      forall i :: 0 <= i < |entries| ==>
        && HidesSensitive(rules, entries[i].copy)
        && (rules.sensitive(entries[i].key) ==> entries[i].copy == CText("[REDACTED]"))
    case _ => true
  }

  lemma {:induction false} MirrorsAreSafe(rules: Rules, heap: Heap, v: Value, copy: Copy, n: nat)
    requires Mirrors(rules, heap, v, copy, n)
    ensures NestsWithin(copy, n) && HidesSensitive(rules, copy)
    decreases n
  {
    if v.Reference? && n > 0 {
      match copy
      case CArray(_, copies) =>
        var items := heap(v.ref).items;
        forall i | 0 <= i < |copies| ensures NestsWithin(copies[i], n - 1) && HidesSensitive(rules, copies[i]) {
          MirrorsAreSafe(rules, heap, items[i], copies[i], n - 1);
        }
      case CObject(_, copies) =>
        var entries := Kept(heap(v.ref).entries, |heap(v.ref).entries|);
        forall i | 0 <= i < |copies|
          ensures NestsWithin(copies[i].copy, n - 1) && HidesSensitive(rules, copies[i].copy)
        {
          if !rules.sensitive(entries[i].key) {
            MirrorsAreSafe(rules, heap, entries[i].value, copies[i].copy, n - 1);
          }
        }
      case _ =>
    }
  }

  /**
   On every graph the redacted value nests at most eight containers, hides every sensitive key at
   every level, and mirrors the graph.
   */
  lemma RedactionIsSafe(rules: Rules, heap: Heap, v: Value)
    ensures var copy := Redact(rules, heap, v, 0, {}).0;
            && NestsWithin(copy, 8)
            && HidesSensitive(rules, copy)
            && Mirrors(rules, heap, v, copy, 8)
  {
    RedactMirrors(rules, heap, v, 0, {});
    MirrorsAreSafe(rules, heap, v, Redact(rules, heap, v, 0, {}).0, MAX_REDACTION_DEPTH);
  }

  // ---------------------------------------------------------------- every text is redacted

  ghost predicate IsRedaction(rules: Rules, texts: iset<string>, s: string) {
    exists t :: t in texts && s == rules.redactString(t)
  }

  /**
   At every level of a copy, each text is a marker or the redaction of one of `texts`, and so are the
   message and the stack of each error; its name is one of `names`.
   */
  ghost predicate OnlyRedacted(rules: Rules, names: iset<string>, texts: iset<string>, copy: Copy) {
    match copy
    case CText(s) => s in ["[REDACTED]", "[Circular]", "[MaxDepth]"] || IsRedaction(rules, texts, s)
    case CError(name, message, stack) =>
      && name in names && IsRedaction(rules, texts, message)
      && (stack.Some? ==> IsRedaction(rules, texts, stack.value))
    case CArray(_, items) => forall i :: 0 <= i < |items| ==> OnlyRedacted(rules, names, texts, items[i])
    case CObject(_, entries) => forall i :: 0 <= i < |entries| ==> OnlyRedacted(rules, names, texts, entries[i].copy)
    case _ => true
  }

  predicate Among(v: Value, visible: iset<Ref>, texts: iset<string>) {
    && (v.Reference? ==> v.ref in visible)
    && (v.Text? ==> v.s in texts)
  }

  /**
   `visible`, `names` and `texts` hold everything that the nodes of `visible` show: no way out of
   them but through sensitive keys.  The least such sets are the graph's own.
   */
  ghost predicate Closed(rules: Rules, heap: Heap, visible: iset<Ref>, names: iset<string>, texts: iset<string>) {
    forall r :: r in visible ==>
      match heap(r)
      case Error(name, message, stack) => name in names && message in texts && (stack.Some? ==> stack.value in texts)
      case Array(items) => forall i :: 0 <= i < |items| ==> Among(items[i], visible, texts)
      case Object(entries) =>
        forall i :: 0 <= i < |entries| ==> rules.sensitive(entries[i].key) || Among(entries[i].value, visible, texts)
  }

  lemma {:induction false} MirrorsShowRedactions(
    rules: Rules, heap: Heap, visible: iset<Ref>, names: iset<string>, texts: iset<string>,
    v: Value, copy: Copy, n: nat)
    requires Closed(rules, heap, visible, names, texts) && Among(v, visible, texts) && Mirrors(rules, heap, v, copy, n)
    ensures OnlyRedacted(rules, names, texts, copy)
    decreases n
  {
    if v.Reference? && n > 0 {
      match copy
      case CArray(_, copies) =>
        var items := heap(v.ref).items;
        forall i | 0 <= i < |copies| ensures OnlyRedacted(rules, names, texts, copies[i]) {
          MirrorsShowRedactions(rules, heap, visible, names, texts, items[i], copies[i], n - 1);
        }
      case CObject(_, copies) =>
        var entries := heap(v.ref).entries;
        var kept := Kept(entries, |entries|);
        forall i | 0 <= i < |copies| ensures OnlyRedacted(rules, names, texts, copies[i].copy) {
          KeptExactly(entries, |entries|, kept[i]);
          if !rules.sensitive(kept[i].key) {
            MirrorsShowRedactions(rules, heap, visible, names, texts, kept[i].value, copies[i].copy, n - 1);
          }
        }
      case _ =>
    }
  }

  /**
   On every graph each text of the redacted value, each error message and each stack, at every
   level, is a marker or the redaction of a text of the graph that no sensitive key hides.
   */
  lemma EveryTextIsRedacted(
    rules: Rules, heap: Heap, visible: iset<Ref>, names: iset<string>, texts: iset<string>, v: Value)
    requires Closed(rules, heap, visible, names, texts) && Among(v, visible, texts)
    ensures OnlyRedacted(rules, names, texts, Redact(rules, heap, v, 0, {}).0)
  {
    RedactMirrors(rules, heap, v, 0, {});
    MirrorsShowRedactions(rules, heap, visible, names, texts, v, Redact(rules, heap, v, 0, {}).0, MAX_REDACTION_DEPTH);
  }

  // ---------------------------------------------------------------- no secret decides anything

  /** Two texts that are redacted to the same text. */
  predicate AlikeTexts(rules: Rules, s: string, t: string) {
    rules.redactString(s) == rules.redactString(t)
  }

  predicate Alike(rules: Rules, v: Value, w: Value) {
    v == w || (v.Text? && w.Text? && AlikeTexts(rules, v.s, w.s))
  }

  /** A missing stack and an empty one are alike. */
  predicate AlikeStacks(rules: Rules, s: Option<string>, t: Option<string>) {
    if s == None || s == Some("") then t == None || t == Some("")
    else t.Some? && t.value != "" && AlikeTexts(rules, s.value, t.value)
  }

  /** Two nodes that differ at most in what sensitive keys hold and in what redaction hides of texts. */
  predicate SameButSecrets(rules: Rules, a: Node, b: Node) {
    match a
    case Error(name, message, stack) =>
      b.Error? && b.name == name && AlikeTexts(rules, message, b.message) && AlikeStacks(rules, stack, b.stack)
    case Array(items) =>
      b.Array? && |b.items| == |items| && forall i :: 0 <= i < |items| ==> Alike(rules, items[i], b.items[i])
    case Object(entries) =>
      && b.Object? && |entries| == |b.entries|
      && forall i :: 0 <= i < |entries| ==>
           && entries[i].key == b.entries[i].key
           && (rules.sensitive(entries[i].key) || Alike(rules, entries[i].value, b.entries[i].value))
  }

  predicate Inside(v: Value, visible: iset<Ref>) {
    v.Reference? ==> v.ref in visible
  }

  /** The nodes of `visible` lead, except through sensitive keys, to nodes of `visible`, and agree there. */
  ghost predicate AgreeOn(rules: Rules, a: Heap, b: Heap, visible: iset<Ref>) {
    forall r :: r in visible ==>
      && SameButSecrets(rules, a(r), b(r))
      && (a(r).Array? ==> forall i :: 0 <= i < |a(r).items| ==> Inside(a(r).items[i], visible))
      && (a(r).Object? ==> forall i :: 0 <= i < |a(r).entries| ==>
            rules.sensitive(a(r).entries[i].key) || Inside(a(r).entries[i].value, visible))
  }

  /**
   The output does not depend on anything that only sensitive keys lead to, nor on what redaction
   hides of any text: heaps that agree on the rest, whatever the secrets and the graphs behind them,
   give the same result.
   */
  lemma {:induction false} SecretsDoNotMatter(
    rules: Rules, a: Heap, b: Heap, visible: iset<Ref>, v: Value, w: Value, depth: nat, seen: set<Ref>)
    requires AgreeOn(rules, a, b, visible) && Inside(v, visible) && Alike(rules, v, w)
    ensures Redact(rules, a, v, depth, seen) == Redact(rules, b, w, depth, seen)
    decreases Left(depth), 0
  {
    if v.Reference? && depth < MAX_REDACTION_DEPTH {
      assert SameButSecrets(rules, a(v.ref), b(v.ref));
      match a(v.ref)
      case Error(_, _, _) =>
      case Array(items) =>
        if v.ref !in seen {
          SecretItems(rules, a, b, visible, items, b(v.ref).items, |items|, depth + 1, seen + {v.ref});
        }
      case Object(entries) =>
        if v.ref !in seen {
          SecretEntries(rules, a, b, visible, entries, b(v.ref).entries, |entries|, depth + 1, seen + {v.ref});
        }
    }
  }

  lemma {:induction false} SecretItems(
    rules: Rules, a: Heap, b: Heap, visible: iset<Ref>, xs: seq<Value>, ys: seq<Value>,
    n: nat, depth: nat, seen: set<Ref>)
    requires AgreeOn(rules, a, b, visible) && n <= |xs| == |ys|
    requires forall i :: 0 <= i < n ==> Inside(xs[i], visible) && Alike(rules, xs[i], ys[i])
    ensures RedactItems(rules, a, xs, n, depth, seen) == RedactItems(rules, b, ys, n, depth, seen)
    decreases Left(depth), n + 1
  {
    if n > 0 {
      var (_, seen1) := RedactItems(rules, a, xs, n - 1, depth, seen);
      SecretItems(rules, a, b, visible, xs, ys, n - 1, depth, seen);
      SecretsDoNotMatter(rules, a, b, visible, xs[n - 1], ys[n - 1], depth, seen1);
    }
  }

  lemma {:induction false} SecretEntries(
    rules: Rules, a: Heap, b: Heap, visible: iset<Ref>, es: seq<Entry>, fs: seq<Entry>,
    n: nat, depth: nat, seen: set<Ref>)
    requires AgreeOn(rules, a, b, visible) && n <= |es| == |fs|
    requires forall i :: 0 <= i < n ==>
               && es[i].key == fs[i].key
               && (rules.sensitive(es[i].key) ||
                   (Alike(rules, es[i].value, fs[i].value) && Inside(es[i].value, visible)))
    ensures RedactEntries(rules, a, es, n, depth, seen) == RedactEntries(rules, b, fs, n, depth, seen)
    decreases Left(depth), n + 1
  {
    if n > 0 {
      var (_, seen1) := RedactEntries(rules, a, es, n - 1, depth, seen);
      SecretEntries(rules, a, b, visible, es, fs, n - 1, depth, seen);
      if !rules.sensitive(es[n - 1].key) {
        SecretsDoNotMatter(rules, a, b, visible, es[n - 1].value, fs[n - 1].value, depth, seen1);
      }
    }
  }

  /** An error is shown by its name, its redacted message and its redacted stack. */
  lemma ErrorIsRedacted(rules: Rules, heap: Heap, r: Ref, name: string, message: string, stack: string)
    requires heap(r) == Error(name, message, Some(stack)) && stack != ""
    ensures Redact(rules, heap, Reference(r), 0, {}).0 ==
            CError(name, rules.redactString(message), Some(rules.redactString(stack)))
  {
  }
}
