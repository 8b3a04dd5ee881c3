/** `redactSecrets`: what a log line may still show of a value. */
module Redact {

  /**
   * A JavaScript value as the walk sees it. `Prim` is a primitive (also null and
   * undefined); `Opaque` an object it returns as it is (an Error, a Date, a
   * Buffer, or one it does not enter). The entries of an object are its own
   * enumerable ones, in order; their keys are distinct.
   */
  datatype Value =
    | Prim(text: string)
    | Opaque(ref: nat)
    | Arr(items: seq<Value>)
    | Obj(entries: seq<Entry>)

  datatype Entry = Entry(key: string, value: Value)

  const REDACTED := Prim("[REDACTED]")
  const MAX_DEPTH := 6

  /** Assigning to this property of a plain object sets its prototype and adds no entry. */
  const PROTO := "__proto__"

  const SECRET_WORDS: seq<string> := [
    "KEY", "SECRET", "TOKEN", "PASSWORD", "PASSWD", "PRIVATE", "AUTHORIZATION", "AUTH",
    "CREDENTIAL", "COOKIE", "SESSION", "API_KEY", "API_-KEY", "FINGERPRINT", "VERIFIER"]

  function UpperChar(c: char): char {
    if 'a' <= c <= 'z' then c - 'a' + 'A' else c
  }

  function Upper(s: string): string {
    seq(|s|, i requires 0 <= i < |s| => UpperChar(s[i]))
  }

  predicate OccursAt(s: string, word: string, i: nat) {
    i + |word| <= |s| && s[i..i + |word|] == word
  }

  predicate Contains(s: string, word: string) {
    exists i :: 0 <= i <= |s| && OccursAt(s, word, i)
  }

  predicate IsSecret(key: string) {
    exists w :: w in SECRET_WORDS && Contains(Upper(key), w)
  }

  // ---------------------------------------------------------------- the rewrite

  function Redacted(v: Value, depth: nat): Value
    decreases v, 0
  {
    if depth > MAX_DEPTH then v
    else
      match v
      case Arr(items) => Arr(RedactedItems(items, depth + 1))
      case Obj(entries) => Obj(RedactedEntries(entries, depth + 1))
      case _ => v
  }

  function RedactedItems(items: seq<Value>, depth: nat): seq<Value>
    decreases items, 1
  {
    if items == [] then [] else [Redacted(items[0], depth)] + RedactedItems(items[1..], depth)
  }

  function RedactedEntries(entries: seq<Entry>, depth: nat): seq<Entry>
    decreases entries, 1
  {
    if entries == [] then [] else Shown(entries[0], depth) + RedactedEntries(entries[1..], depth)
  }

  /** What is left of one entry. */
  function Shown(e: Entry, depth: nat): seq<Entry>
    decreases e, 0
  {
    if e.key == PROTO then [] else [Entry(e.key, if IsSecret(e.key) then REDACTED else Redacted(e.value, depth))]
  }

  lemma {:induction false} ItemsSnoc(items: seq<Value>, v: Value, depth: nat)
    ensures RedactedItems(items + [v], depth) == RedactedItems(items, depth) + [Redacted(v, depth)]
  {
    if items == [] {
      assert [v][1..] == [];
    } else {
      assert (items + [v])[1..] == items[1..] + [v];
      ItemsSnoc(items[1..], v, depth);
    }
  }

  lemma {:induction false} EntriesSnoc(entries: seq<Entry>, e: Entry, depth: nat)
    ensures RedactedEntries(entries + [e], depth) == RedactedEntries(entries, depth) + Shown(e, depth)
  {
    if entries == [] {
      assert [] + [e] == [e] && [e][1..] == [];
    } else {
      assert (entries + [e])[1..] == entries[1..] + [e];
      EntriesSnoc(entries[1..], e, depth);
    }
  }

  /** The recursive walk, filling a new object entry by entry. */
  method RedactSecrets(input: Value, depth: nat) returns (out: Value)
    ensures out == Redacted(input, depth)
    decreases input
  {
    if depth > MAX_DEPTH { return input; }
    match input {
      case Arr(items) =>
        var mapped: seq<Value> := [];
        var i := 0;
        while i < |items|
          invariant 0 <= i <= |items| && mapped == RedactedItems(items[..i], depth + 1)
        {
          var v := RedactSecrets(items[i], depth + 1);
          assert items[..i + 1] == items[..i] + [items[i]];
          ItemsSnoc(items[..i], items[i], depth + 1);
          mapped := mapped + [v];
          i := i + 1;
        }
        assert items[..|items|] == items;
        out := Arr(mapped);
      case Obj(entries) =>
        var kept: seq<Entry> := [];
        var i := 0;
        while i < |entries|
          invariant 0 <= i <= |entries| && kept == RedactedEntries(entries[..i], depth + 1)
        {
          var Entry(k, v) := entries[i];
          var shown := REDACTED;
          if !IsSecret(k) { shown := RedactSecrets(v, depth + 1); }
          assert entries[..i + 1] == entries[..i] + [entries[i]];
          EntriesSnoc(entries[..i], entries[i], depth + 1);
          if k != PROTO { kept := kept + [Entry(k, shown)]; }
          i := i + 1;
        }
        assert entries[..|entries|] == entries;
        out := Obj(kept);
      case _ =>
        out := input;
    }
  }

  // ---------------------------------------------------------------- noninterference

  /** The values agree everywhere but beneath secret-named keys of objects at depth 0 to 6. */
  predicate Agree(a: Value, b: Value, depth: nat)
    decreases a, 0
  {
    if depth > MAX_DEPTH then a == b
    else
      match (a, b)
      case (Arr(xs), Arr(ys)) => AgreeItems(xs, ys, depth + 1)
      case (Obj(xs), Obj(ys)) => AgreeEntries(xs, ys, depth + 1)
      case (_, _) => a == b
  }

  predicate AgreeItems(xs: seq<Value>, ys: seq<Value>, depth: nat)
    decreases xs, 1
  {
    if xs == [] || ys == [] then xs == ys
    else Agree(xs[0], ys[0], depth) && AgreeItems(xs[1..], ys[1..], depth)
  }

  predicate AgreeEntries(xs: seq<Entry>, ys: seq<Entry>, depth: nat)
    decreases xs, 1, |ys|
  {
    if xs != [] && xs[0].key == PROTO then AgreeEntries(xs[1..], ys, depth)
    else if ys != [] && ys[0].key == PROTO then AgreeEntries(xs, ys[1..], depth)
    else if xs == [] || ys == [] then xs == [] && ys == []
    else
      && xs[0].key == ys[0].key && (IsSecret(xs[0].key) || Agree(xs[0].value, ys[0].value, depth))
      && AgreeEntries(xs[1..], ys[1..], depth)
  }

  /**
   * The output depends on exactly the visible part: two values have the same
   * output if and only if they agree outside secrets.
   */
  lemma {:induction false} OutputIsTheVisiblePart(a: Value, b: Value, depth: nat)
    ensures Redacted(a, depth) == Redacted(b, depth) <==> Agree(a, b, depth)
    decreases a, 0
  {
    if depth <= MAX_DEPTH {
      match (a, b)
      case (Arr(xs), Arr(ys)) => ItemsVisible(xs, ys, depth + 1);
      case (Obj(xs), Obj(ys)) => EntriesVisible(xs, ys, depth + 1);
      case (_, _) =>
    }
  }

  lemma {:induction false} ItemsVisible(xs: seq<Value>, ys: seq<Value>, depth: nat)
    ensures RedactedItems(xs, depth) == RedactedItems(ys, depth) <==> AgreeItems(xs, ys, depth)
    decreases xs, 1
  {
    if xs != [] && ys != [] {
      OutputIsTheVisiblePart(xs[0], ys[0], depth);
      ItemsVisible(xs[1..], ys[1..], depth);
      ConsInjective(Redacted(xs[0], depth), RedactedItems(xs[1..], depth), Redacted(ys[0], depth),
          RedactedItems(ys[1..], depth));
    }
  }

  lemma ConsInjective<T>(x: T, xs: seq<T>, y: T, ys: seq<T>)
    ensures [x] + xs == [y] + ys <==> x == y && xs == ys
  {
    assert ([x] + xs)[1..] == xs && ([y] + ys)[1..] == ys;
    assert ([x] + xs)[0] == x && ([y] + ys)[0] == y;
  }

  lemma {:induction false} EntriesVisible(xs: seq<Entry>, ys: seq<Entry>, depth: nat)
    ensures RedactedEntries(xs, depth) == RedactedEntries(ys, depth) <==> AgreeEntries(xs, ys, depth)
    decreases xs, 1, |ys|
  {
    if xs != [] && xs[0].key == PROTO {
      EntriesVisible(xs[1..], ys, depth);
      assert RedactedEntries(xs, depth) == RedactedEntries(xs[1..], depth);
    } else if ys != [] && ys[0].key == PROTO {
      EntriesVisible(xs, ys[1..], depth);
      assert RedactedEntries(ys, depth) == RedactedEntries(ys[1..], depth);
    } else if xs != [] && ys != [] {
      OutputIsTheVisiblePart(xs[0].value, ys[0].value, depth);
      EntriesVisible(xs[1..], ys[1..], depth);
      var x := Entry(xs[0].key, if IsSecret(xs[0].key) then REDACTED else Redacted(xs[0].value, depth));
      var y := Entry(ys[0].key, if IsSecret(ys[0].key) then REDACTED else Redacted(ys[0].value, depth));
      ConsInjective(x, RedactedEntries(xs[1..], depth), y, RedactedEntries(ys[1..], depth));
    }
  }

  /** The output agrees with the input outside secrets: keys, lengths and leaves are kept. */
  lemma {:induction false} OutputAgreesWithInput(v: Value, depth: nat)
    ensures Agree(v, Redacted(v, depth), depth)
    decreases v, 0
  {
    if depth <= MAX_DEPTH {
      match v
      case Arr(items) => ItemsAgree(items, depth + 1);
      case Obj(entries) => EntriesAgree(entries, depth + 1);
      case _ =>
    }
  }

  lemma {:induction false} ItemsAgree(items: seq<Value>, depth: nat)
    ensures AgreeItems(items, RedactedItems(items, depth), depth)
    decreases items, 1
  {
    if items != [] {
      OutputAgreesWithInput(items[0], depth);
      ItemsAgree(items[1..], depth);
      assert RedactedItems(items, depth)[1..] == RedactedItems(items[1..], depth);
    }
  }

  lemma {:induction false} EntriesAgree(entries: seq<Entry>, depth: nat)
    ensures AgreeEntries(entries, RedactedEntries(entries, depth), depth)
    decreases entries, 1
  {
    if entries != [] {
      EntriesAgree(entries[1..], depth);
      if entries[0].key == PROTO { assert RedactedEntries(entries, depth) == RedactedEntries(entries[1..], depth); }
      if entries[0].key != PROTO {
        OutputAgreesWithInput(entries[0].value, depth);
        assert RedactedEntries(entries, depth)[1..] == RedactedEntries(entries[1..], depth);
      }
    }
  }

  /** Redacting twice is redacting once. */
  lemma Idempotent(v: Value, depth: nat)
    ensures Redacted(Redacted(v, depth), depth) == Redacted(v, depth)
  {
    OutputAgreesWithInput(v, depth);
    OutputIsTheVisiblePart(v, Redacted(v, depth), depth);
  }

  // ---------------------------------------------------------------- what is kept, and what is not

  /** An own property called `__proto__` in an object the walk copies. */
  predicate HasProto(v: Value, depth: nat)
    decreases v, 0
  {
    depth <= MAX_DEPTH &&
    match v
    case Arr(items) => exists i :: 0 <= i < |items| && HasProto(items[i], depth + 1)
    case Obj(entries) =>
      exists i ::
        && 0 <= i < |entries|
        && (entries[i].key == PROTO || (!IsSecret(entries[i].key) && HasProto(entries[i].value, depth + 1)))
    case _ => false
  }

  /** `out` has every array length and every key of `v`, in order, down to the depth limit. */
  predicate SameShape(v: Value, out: Value, depth: nat)
    decreases v, 0
  {
    depth <= MAX_DEPTH ==>
      match (v, out)
      case (Arr(xs), Arr(ys)) => |xs| == |ys| && forall i :: 0 <= i < |xs| ==> SameShape(xs[i], ys[i], depth + 1)
      case (Obj(xs), Obj(ys)) =>
        |xs| == |ys| && forall i :: 0 <= i < |xs| ==>
            xs[i].key == ys[i].key && (IsSecret(xs[i].key) || SameShape(xs[i].value, ys[i].value, depth + 1))
      case (_, _) => v == out
  }

  lemma {:induction false} ItemAt(items: seq<Value>, depth: nat)
    ensures |RedactedItems(items, depth)| == |items|
    ensures forall i :: 0 <= i < |items| ==> RedactedItems(items, depth)[i] == Redacted(items[i], depth)
  {
    if items != [] { ItemAt(items[1..], depth); }
  }

  lemma {:induction false} EntryCount(entries: seq<Entry>, depth: nat)
    ensures |RedactedEntries(entries, depth)| <= |entries|
    ensures |RedactedEntries(entries, depth)| == |entries| <==> forall i :: 0 <= i < |entries| ==>
            entries[i].key != PROTO
    ensures |RedactedEntries(entries, depth)| == |entries| ==>
              forall i :: 0 <= i < |entries| ==>
                RedactedEntries(entries, depth)[i] == Entry(entries[i].key, if IsSecret(entries[i].key) then REDACTED
                    else Redacted(entries[i].value, depth))
  {
    if entries != [] {
      EntryCount(entries[1..], depth);
      if entries[0].key != PROTO {
        forall i | 0 <= i < |entries| && |RedactedEntries(entries, depth)| == |entries|
          ensures RedactedEntries(entries, depth)[i] == Entry(entries[i].key,
                  if IsSecret(entries[i].key) then REDACTED else Redacted(entries[i].value, depth))
        {
          if i > 0 { assert entries[i] == entries[1..][i - 1]; }
        }
        if forall i :: 0 <= i < |entries| ==> entries[i].key != PROTO {
          forall i | 0 <= i < |entries[1..]|
            ensures entries[1..][i].key != PROTO { assert entries[1..][i] == entries[i + 1]; }
        }
        if forall i :: 0 <= i < |entries[1..]| ==> entries[1..][i].key != PROTO {
          forall i | 0 <= i < |entries|
            ensures entries[i].key != PROTO { if i > 0 { assert entries[i] == entries[1..][i - 1]; } }
        }
      }
    }
  }

  /** Keys and lengths all survive, unless a copied object has its own property `__proto__`. */
  lemma {:induction false} ShapeKeptIff(v: Value, depth: nat)
    ensures SameShape(v, Redacted(v, depth), depth) <==> !HasProto(v, depth)
    decreases v, 0
  {
    if depth <= MAX_DEPTH {
      match v
      case Arr(items) =>
        ItemAt(items, depth + 1);
        forall i | 0 <= i < |items|
          ensures SameShape(items[i], Redacted(items[i], depth + 1), depth + 1) <==> !HasProto(items[i], depth + 1) {
          ShapeKeptIff(items[i], depth + 1);
        }
      case Obj(entries) =>
        EntryCount(entries, depth + 1);
        forall i | 0 <= i < |entries|
          ensures SameShape(entries[i].value, Redacted(entries[i].value, depth + 1), depth + 1)
                  <==> !HasProto(entries[i].value, depth + 1)
        {
          ShapeKeptIff(entries[i].value, depth + 1);
        }
      case _ =>
    }
  }

  /** Every secret-named key, at any depth, shows the placeholder. */
  predicate Clean(v: Value)
    decreases v, 0
  {
    match v
    case Arr(items) => CleanItems(items)
    case Obj(entries) => CleanEntries(entries)
    case _ => true
  }

  predicate CleanItems(items: seq<Value>)
    decreases items, 1
  {
    items == [] || (Clean(items[0]) && CleanItems(items[1..]))
  }

  predicate CleanEntries(entries: seq<Entry>)
    decreases entries, 1
  {
    entries == []
    || ((if IsSecret(entries[0].key) then entries[0].value == REDACTED else Clean(entries[0].value))
        && CleanEntries(entries[1..]))
  }

  /** What lies below the depth limit, outside secrets, is already clean. */
  predicate DeepPartClean(v: Value, depth: nat)
    decreases v, 0
  {
    if depth > MAX_DEPTH then Clean(v)
    else
      match v
      case Arr(items) => DeepItemsClean(items, depth + 1)
      case Obj(entries) => DeepEntriesClean(entries, depth + 1)
      case _ => true
  }

  predicate DeepItemsClean(items: seq<Value>, depth: nat)
    decreases items, 1
  {
    items == [] || (DeepPartClean(items[0], depth) && DeepItemsClean(items[1..], depth))
  }

  predicate DeepEntriesClean(entries: seq<Entry>, depth: nat)
    decreases entries, 1
  {
    entries == []
    || ((entries[0].key == PROTO || IsSecret(entries[0].key) || DeepPartClean(entries[0].value, depth))
        && DeepEntriesClean(entries[1..], depth))
  }

  lemma {:induction false} ItemsCleanIff(items: seq<Value>, depth: nat)
    ensures CleanItems(RedactedItems(items, depth)) <==> DeepItemsClean(items, depth)
    decreases items, 1
  {
    if items != [] {
      CleanIff(items[0], depth);
      ItemsCleanIff(items[1..], depth);
      assert RedactedItems(items, depth)[1..] == RedactedItems(items[1..], depth);
    }
  }

  lemma {:induction false} EntriesCleanIff(entries: seq<Entry>, depth: nat)
    ensures CleanEntries(RedactedEntries(entries, depth)) <==> DeepEntriesClean(entries, depth)
    decreases entries, 1
  {
    if entries != [] {
      EntriesCleanIff(entries[1..], depth);
      if entries[0].key == PROTO {
        assert RedactedEntries(entries, depth) == RedactedEntries(entries[1..], depth);
      } else {
        CleanIff(entries[0].value, depth);
        assert RedactedEntries(entries, depth)[1..] == RedactedEntries(entries[1..], depth);
      }
    }
  }

  /** No secret is left exactly when none lies below the depth limit. */
  lemma {:induction false} CleanIff(v: Value, depth: nat)
    ensures Clean(Redacted(v, depth)) <==> DeepPartClean(v, depth)
    decreases v, 0
  {
    if depth <= MAX_DEPTH {
      match v
      case Arr(items) => ItemsCleanIff(items, depth + 1);
      case Obj(entries) => EntriesCleanIff(entries, depth + 1);
      case _ =>
    }
  }

  /** `v` inside `n` arrays. */
  function Nested(n: nat, v: Value): Value {
    if n == 0 then v else Arr([Nested(n - 1, v)])
  }

  /** A secret seven levels down is shown as it is. */
  lemma {:induction false} DeepSecretIsShown(n: nat, depth: nat, key: string, secret: Value)
    requires n + depth == 7
    ensures Redacted(Nested(n, Obj([Entry(key, secret)])), depth) == Nested(n, Obj([Entry(key, secret)]))
  {
    if n > 0 {
      DeepSecretIsShown(n - 1, depth + 1, key, secret);
      var inner := Nested(n - 1, Obj([Entry(key, secret)]));
      assert [inner][1..] == [];
      assert RedactedItems([inner], depth + 1) == [inner];
    }
  }

  // ---------------------------------------------------------------- object graphs

  /** A heap of objects, which may refer to each other in cycles. */
  datatype Cell = Scalar(text: string) | At(ref: nat)
  datatype Node = ArrayNode(cells: seq<Cell>) | ObjectNode(fields: seq<(string, Cell)>) | OpaqueNode

  type Graph = map<nat, Node>

  /** The walk on a heap: the depth alone makes it stop. */
  function RedactedGraph(g: Graph, c: Cell, depth: nat): Value
    decreases MAX_DEPTH + 1 - depth, 0
  {
    if c.Scalar? then Prim(c.text)
    else if depth > MAX_DEPTH || c.ref !in g then Opaque(c.ref)
    else
      match g[c.ref]
      case ArrayNode(cells) => Arr(RedactedCells(g, cells, depth + 1))
      case ObjectNode(fields) => Obj(RedactedFields(g, fields, depth + 1))
      case OpaqueNode => Opaque(c.ref)
  }

  function RedactedCells(g: Graph, cells: seq<Cell>, depth: nat): seq<Value>
    decreases MAX_DEPTH + 1 - depth, 1, |cells|
  {
    if cells == [] then [] else [RedactedGraph(g, cells[0], depth)] + RedactedCells(g, cells[1..], depth)
  }

  function RedactedFields(g: Graph, fields: seq<(string, Cell)>, depth: nat): seq<Entry>
    decreases MAX_DEPTH + 1 - depth, 1, |fields|
  {
    if fields == [] then []
    else
      var (k, c) := fields[0];
      (if k == PROTO then [] else [Entry(k, if IsSecret(k) then REDACTED else RedactedGraph(g, c, depth))])
      + RedactedFields(g, fields[1..], depth)
  }

  /** The tree seen from a cell, cut off `n` levels down. */
  function Unfold(g: Graph, c: Cell, n: nat): Value
    decreases n, 0
  {
    if c.Scalar? then Prim(c.text)
    else if n == 0 || c.ref !in g then Opaque(c.ref)
    else
      match g[c.ref]
      case ArrayNode(cells) => Arr(UnfoldCells(g, cells, n - 1))
      case ObjectNode(fields) => Obj(UnfoldFields(g, fields, n - 1))
      case OpaqueNode => Opaque(c.ref)
  }

  function UnfoldCells(g: Graph, cells: seq<Cell>, n: nat): seq<Value>
    decreases n, 1, |cells|
  {
    if cells == [] then [] else [Unfold(g, cells[0], n)] + UnfoldCells(g, cells[1..], n)
  }

  function UnfoldFields(g: Graph, fields: seq<(string, Cell)>, n: nat): seq<Entry>
    decreases n, 1, |fields|
  {
    if fields == [] then [] else [Entry(fields[0].0, Unfold(g, fields[0].1, n))] + UnfoldFields(g, fields[1..], n)
  }

  /**
   * On any heap, cyclic or not, the walk is the rewrite of the tree seen to depth
   * 7: so everything above applies to it.
   */
  lemma {:induction false} GraphIsTree(g: Graph, c: Cell, depth: nat)
    requires depth <= MAX_DEPTH + 1
    ensures RedactedGraph(g, c, depth) == Redacted(Unfold(g, c, MAX_DEPTH + 1 - depth), depth)
    decreases MAX_DEPTH + 1 - depth, 0
  {
    if c.At? && depth <= MAX_DEPTH && c.ref in g {
      match g[c.ref]
      case ArrayNode(cells) => CellsAreTrees(g, cells, depth + 1);
      case ObjectNode(fields) => FieldsAreTrees(g, fields, depth + 1);
      case OpaqueNode =>
    }
  }

  lemma {:induction false} CellsAreTrees(g: Graph, cells: seq<Cell>, depth: nat)
    requires depth <= MAX_DEPTH + 1
    ensures RedactedCells(g, cells, depth) == RedactedItems(UnfoldCells(g, cells, MAX_DEPTH + 1 - depth), depth)
    decreases MAX_DEPTH + 1 - depth, 1, |cells|
  {
    if cells != [] {
      GraphIsTree(g, cells[0], depth);
      CellsAreTrees(g, cells[1..], depth);
      assert UnfoldCells(g, cells, MAX_DEPTH + 1 - depth)[1..] == UnfoldCells(g, cells[1..], MAX_DEPTH + 1 - depth);
    }
  }

  lemma {:induction false} FieldsAreTrees(g: Graph, fields: seq<(string, Cell)>, depth: nat)
    requires depth <= MAX_DEPTH + 1
    ensures RedactedFields(g, fields, depth) == RedactedEntries(UnfoldFields(g, fields, MAX_DEPTH + 1 - depth), depth)
    decreases MAX_DEPTH + 1 - depth, 1, |fields|
  {
    if fields != [] {
      GraphIsTree(g, fields[0].1, depth);
      FieldsAreTrees(g, fields[1..], depth);
      assert UnfoldFields(g, fields, MAX_DEPTH + 1 - depth)[1..] == UnfoldFields(g, fields[1..], MAX_DEPTH + 1 - depth);
    }
  }
}
