/** EmailUtilities.processParams / processList: the request's free-form
    `params` tree flattened into the variables of a Thymeleaf context. */
module TemplateParams {
  import opened JavaLang

  /** A node of the parameter tree: a JSON null, a value rendered by its
      `toString()`, a list, or a map whose entries are listed in the order its
      `entrySet()` yields them. */
  datatype Param =
    | Null
    | Scalar(text: string)
    | ListParam(items: seq<Param>)
    | MapParam(entries: seq<Entry>)

  datatype Entry = Entry(key: string, value: Param)

  /** A context variable: a rendered string, or a list or map bound as is. */
  datatype Variable = Text(text: string) | Raw(param: Param)

  /** The variables after a flattening, and whether it finished (false: a
      `toString()` on null threw and the variables are those set before). */
  datatype Bound = Bound(vars: map<string, Variable>, ok: bool)

  /** The name under which item `index` of the list bound to `parentKey` is bound. */
  function ItemKey(parentKey: string, index: nat): string {
    parentKey + "[" + NatToString(index) + "]"
  }

  // ---------------------------------------------------------------------------
  // The flattening, as functions

  /** The loop that binds each child of a map under its own name, as is. */
  function BindRaw(vars: map<string, Variable>, entries: seq<Entry>): map<string, Variable>
    decreases entries
  {
    if entries == [] then vars
    else BindRaw(vars[entries[0].key := Raw(entries[0].value)], entries[1..])
  }

  /** One value met under `key`: a map hoists its children and is flattened in
      turn, a list is bound whole and its items flattened under `key[i]`, a
      scalar is bound as text, and null throws. */
  function BindValue(vars: map<string, Variable>, key: string, value: Param): Bound
    decreases value
  {
    match value
    case MapParam(entries) => BindEntries(BindRaw(vars, entries), entries)
    case ListParam(items) => BindItems(vars[key := Raw(value)], items, key, 0)
    case Scalar(text) => Bound(vars[key := Text(text)], true)
    case Null => Bound(vars, false)
  }

  /** processParams over the remaining entries. */
  function BindEntries(vars: map<string, Variable>, entries: seq<Entry>): Bound
    decreases entries
  {
    if entries == [] then Bound(vars, true)
    else
      assert entries[0] in entries;
      var b := BindValue(vars, entries[0].key, entries[0].value);
      if !b.ok then b else BindEntries(b.vars, entries[1..])
  }

  /** processList over the remaining items, the first of them at `index`. */
  function BindItems(vars: map<string, Variable>, items: seq<Param>, parentKey: string, index: nat): Bound
    decreases items
  {
    if items == [] then Bound(vars, true)
    else
      var b := BindValue(vars, ItemKey(parentKey, index), items[0]);
      if !b.ok then b else BindItems(b.vars, items[1..], parentKey, index + 1)
  }

  // ---------------------------------------------------------------------------
  // The Thymeleaf context and the two methods

  /** The part of org.thymeleaf.context.Context that is written: its variables. */
  class TemplateContext {
    var variables: map<string, Variable>

    constructor ()
      ensures variables == map[]
    {
      variables := map[];
    }

    /** `setVariable(name, value)`: a later binding replaces an earlier one. */
    method SetVariable(name: string, value: Variable)
      modifies this
      ensures variables == old(variables)[name := value]
    {
      variables := variables[name := value];
    }
  }

  /** The inner loop of both methods: every child of a map bound under its own
      name, as is. */
  method BindDetails(context: TemplateContext, details: seq<Entry>)
    modifies context
    ensures context.variables == BindRaw(old(context.variables), details)
  {
    for j := 0 to |details|
      invariant BindRaw(context.variables, details[j..]) == BindRaw(old(context.variables), details)
    {
      assert details[j..][1..] == details[j + 1..];
      context.SetVariable(details[j].key, Raw(details[j].value));
    }
  }

  /** `processParams(params, context)`; `ok` is false where it throws. */
  method ProcessParams(context: TemplateContext, params: seq<Entry>) returns (ok: bool)
    modifies context
    decreases params
    ensures Bound(context.variables, ok) == BindEntries(old(context.variables), params)
  {
    var i := 0;
    while i < |params|
      invariant 0 <= i <= |params|
      invariant BindEntries(context.variables, params[i..]) == BindEntries(old(context.variables), params)
      decreases |params| - i
    {
      var entry := params[i];
      assert entry in params;
      assert params[i..][0] == entry && params[i..][1..] == params[i + 1..];
      match entry.value {
        case MapParam(details) =>
          BindDetails(context, details);
          ok := ProcessParams(context, details);
        case ListParam(items) =>
          context.SetVariable(entry.key, Raw(entry.value));
          ok := ProcessList(context, items, entry.key);
        case Scalar(text) =>
          context.SetVariable(entry.key, Text(text));
          ok := true;
        case Null =>
          ok := false;
      }
      if !ok {
        return;
      }
      i := i + 1;
    }
    ok := true;
  }

  /** `processList(list, context, parentKey)`; `ok` is false where it throws. */
  method ProcessList(context: TemplateContext, list: seq<Param>, parentKey: string) returns (ok: bool)
    modifies context
    decreases list
    ensures Bound(context.variables, ok) == BindItems(old(context.variables), list, parentKey, 0)
  {
    var index := 0;
    while index < |list|
      invariant 0 <= index <= |list|
      invariant BindItems(context.variables, list[index..], parentKey, index)
             == BindItems(old(context.variables), list, parentKey, 0)
      decreases |list| - index
    {
      var item := list[index];
      var key := ItemKey(parentKey, index);
      assert list[index..][0] == item && list[index..][1..] == list[index + 1..];
      match item {
        case MapParam(details) =>
          BindDetails(context, details);
          ok := ProcessParams(context, details);
        case ListParam(items) =>
          context.SetVariable(key, Raw(item));
          ok := ProcessList(context, items, key);
        case Scalar(text) =>
          context.SetVariable(key, Text(text));
          ok := true;
        case Null =>
          ok := false;
      }
      if !ok {
        return;
      }
      index := index + 1;
    }
    ok := true;
  }

  // ---------------------------------------------------------------------------
  // Properties

  /** No null anywhere in the tree. */
  predicate NoNull(p: Param)
    decreases p
  {
    match p
    case Null => false
    case Scalar(_) => true
    case ListParam(items) => forall i | 0 <= i < |items| :: NoNull(items[i])
    case MapParam(entries) => forall i | 0 <= i < |entries| :: NoNull(entries[i].value)
  }

  /** A flattening finishes exactly when the tree holds no null. */
  lemma {:induction false} ValueOkIffNoNull(vars: map<string, Variable>, key: string, value: Param)
    decreases value
    ensures BindValue(vars, key, value).ok <==> NoNull(value)
  {
    match value
    case MapParam(entries) => EntriesOkIffNoNull(BindRaw(vars, entries), entries);
    case ListParam(items) => ItemsOkIffNoNull(vars[key := Raw(value)], items, key, 0);
    case Scalar(_) =>
    case Null =>
  }

  lemma {:induction false} EntriesOkIffNoNull(vars: map<string, Variable>, entries: seq<Entry>)
    decreases entries
    ensures BindEntries(vars, entries).ok <==> forall i | 0 <= i < |entries| :: NoNull(entries[i].value)
  {
    if entries != [] {
      assert entries[0] in entries;
      ValueOkIffNoNull(vars, entries[0].key, entries[0].value);
      var b := BindValue(vars, entries[0].key, entries[0].value);
      if b.ok {
        EntriesOkIffNoNull(b.vars, entries[1..]);
        assert forall i | 1 <= i < |entries| :: entries[i] == entries[1..][i - 1];
      }
    }
  }

  lemma {:induction false} ItemsOkIffNoNull(vars: map<string, Variable>, items: seq<Param>, parentKey: string, index: nat)
    decreases items
    ensures BindItems(vars, items, parentKey, index).ok <==> forall i | 0 <= i < |items| :: NoNull(items[i])
  {
    if items != [] {
      ValueOkIffNoNull(vars, ItemKey(parentKey, index), items[0]);
      var b := BindValue(vars, ItemKey(parentKey, index), items[0]);
      if b.ok {
        ItemsOkIffNoNull(b.vars, items[1..], parentKey, index + 1);
        assert forall i | 1 <= i < |items| :: items[i] == items[1..][i - 1];
      }
    }
  }

  /** The names a value met under `key` may bind. */
  ghost function Names(key: string, value: Param): set<string>
    decreases value
  {
    match value
    case MapParam(entries) => EntryNames(entries)
    case ListParam(items) => {key} + ItemNames(items, key, 0)
    case Scalar(_) => {key}
    case Null => {}
  }

  /** The names a map's entries may bind: their own keys (bound as is by the
      parent) and what their values bind. */
  ghost function EntryNames(entries: seq<Entry>): set<string>
    decreases entries
  {
    if entries == [] then {}
    else
      assert entries[0] in entries;
      {entries[0].key} + Names(entries[0].key, entries[0].value) + EntryNames(entries[1..])
  }

  ghost function ItemNames(items: seq<Param>, parentKey: string, index: nat): set<string>
    decreases items
  {
    if items == [] then {}
    else Names(ItemKey(parentKey, index), items[0]) + ItemNames(items[1..], parentKey, index + 1)
  }

  /** Maps that agree outside a set of names agree outside any larger set. */
  lemma FrameWiden(a: map<string, Variable>, b: map<string, Variable>, small: set<string>, big: set<string>)
    requires small <= big && a - small == b - small
    ensures a - big == b - big
  {
    forall n | n !in big
      ensures (n in a <==> n in b) && (n in a ==> a[n] == b[n])
    {
      assert n in a <==> n in a - small;
      assert n in b <==> n in b - small;
      if n in a {
        assert (a - small)[n] == a[n];
        assert (b - small)[n] == b[n];
      }
    }
  }

  /** A name outside the set two maps are known to agree outside of. */
  lemma FrameKeep(a: map<string, Variable>, b: map<string, Variable>, names: set<string>, n: string)
    requires a - names == b - names && n !in names
    ensures n in a <==> n in b
    ensures n in b ==> a[n] == b[n]
  {
    assert n in a <==> n in a - names;
    assert n in b <==> n in b - names;
    if n in b {
      assert (a - names)[n] == a[n];
      assert (b - names)[n] == b[n];
    }
  }

  /** Binding the children of a map as is touches only their keys. */
  lemma {:induction false} RawFrame(vars: map<string, Variable>, entries: seq<Entry>)
    decreases entries
    ensures BindRaw(vars, entries) - EntryNames(entries) == vars - EntryNames(entries)
  {
    if entries != [] {
      var e := entries[0];
      var rest := entries[1..];
      RawFrame(vars[e.key := Raw(e.value)], rest);
      FrameWiden(BindRaw(vars, entries), vars[e.key := Raw(e.value)], EntryNames(rest), EntryNames(entries));
      FrameWiden(vars[e.key := Raw(e.value)], vars, {e.key}, EntryNames(entries));
    }
  }

  /** A flattening changes no variable outside the names it may bind, whether
      or not it finishes. */
  lemma {:induction false} ValueFrame(vars: map<string, Variable>, key: string, value: Param)
    decreases value
    ensures BindValue(vars, key, value).vars - Names(key, value) == vars - Names(key, value)
  {
    match value
    case MapParam(entries) =>
      RawFrame(vars, entries);
      EntriesFrame(BindRaw(vars, entries), entries);
    case ListParam(items) =>
      ItemsFrame(vars[key := Raw(value)], items, key, 0);
      FrameWiden(BindValue(vars, key, value).vars, vars[key := Raw(value)], ItemNames(items, key, 0), Names(key, value));
      FrameWiden(vars[key := Raw(value)], vars, {key}, Names(key, value));
    case Scalar(text) =>
      FrameWiden(vars[key := Text(text)], vars, {key}, {key});
    case Null =>
  }

  lemma {:induction false} EntriesFrame(vars: map<string, Variable>, entries: seq<Entry>)
    decreases entries
    ensures BindEntries(vars, entries).vars - EntryNames(entries) == vars - EntryNames(entries)
  {
    if entries != [] {
      var e := entries[0];
      assert e in entries;
      var b := BindValue(vars, e.key, e.value);
      ValueFrame(vars, e.key, e.value);
      FrameWiden(b.vars, vars, Names(e.key, e.value), EntryNames(entries));
      if b.ok {
        EntriesFrame(b.vars, entries[1..]);
        FrameWiden(BindEntries(vars, entries).vars, b.vars, EntryNames(entries[1..]), EntryNames(entries));
      }
    }
  }

  lemma {:induction false} ItemsFrame(vars: map<string, Variable>, items: seq<Param>, parentKey: string, index: nat)
    decreases items
    ensures BindItems(vars, items, parentKey, index).vars - ItemNames(items, parentKey, index)
         == vars - ItemNames(items, parentKey, index)
  {
    if items != [] {
      var key := ItemKey(parentKey, index);
      var b := BindValue(vars, key, items[0]);
      ValueFrame(vars, key, items[0]);
      FrameWiden(b.vars, vars, Names(key, items[0]), ItemNames(items, parentKey, index));
      if b.ok {
        ItemsFrame(b.vars, items[1..], parentKey, index + 1);
        FrameWiden(BindItems(vars, items, parentKey, index).vars, b.vars,
                   ItemNames(items[1..], parentKey, index + 1), ItemNames(items, parentKey, index));
      }
    }
  }

  /** Flattening `a + b` is flattening `a`, then, if that finished, `b`: the
      bindings of later entries are applied over those of earlier ones. */
  lemma {:induction false} EntriesAppend(vars: map<string, Variable>, a: seq<Entry>, b: seq<Entry>)
    decreases a
    ensures BindEntries(vars, a + b)
         == (var r := BindEntries(vars, a); if r.ok then BindEntries(r.vars, b) else r)
  {
    if a != [] {
      assert (a + b)[0] == a[0] && (a + b)[1..] == a[1..] + b;
      var first := BindValue(vars, a[0].key, a[0].value);
      assert BindEntries(vars, a + b) == if first.ok then BindEntries(first.vars, a[1..] + b) else first;
      assert BindEntries(vars, a) == if first.ok then BindEntries(first.vars, a[1..]) else first;
      if first.ok {
        EntriesAppend(first.vars, a[1..], b);
      }
    } else {
      assert a + b == b;
    }
  }

  /** A scalar entry flattened last decides its key: the later binding wins. */
  lemma LaterScalarWins(vars: map<string, Variable>, entries: seq<Entry>, key: string, text: string)
    requires BindEntries(vars, entries).ok
    ensures var r := BindEntries(vars, entries + [Entry(key, Scalar(text))]);
      r.ok && r.vars == BindEntries(vars, entries).vars[key := Text(text)]
  {
    EntriesAppend(vars, entries, [Entry(key, Scalar(text))]);
  }

  /** Item keys of one list are distinct from each other and from the list's key. */
  lemma ItemKeyDistinct(parentKey: string, i: nat, j: nat)
    ensures ItemKey(parentKey, i) != parentKey
    ensures i != j ==> ItemKey(parentKey, i) != ItemKey(parentKey, j)
  {
    if i != j && ItemKey(parentKey, i) == ItemKey(parentKey, j) {
      var n := |parentKey| + 1;
      var si, sj := ItemKey(parentKey, i), ItemKey(parentKey, j);
      assert |NatToString(i)| == |si| - n - 1 == |NatToString(j)|;
      assert NatToString(i) == si[n..|si| - 1] == sj[n..|sj| - 1] == NatToString(j);
      NatToStringInjective(i, j);
    }
  }

  /** An item name determines the list name and the index it was made from. */
  lemma ItemKeyInjective(p: string, i: nat, q: string, j: nat)
    ensures ItemKey(p, i) == ItemKey(q, j) <==> p == q && i == j
  {
    if ItemKey(p, i) == ItemKey(q, j) {
      var a, b := NatToString(i), NatToString(j);
      var s := ItemKey(p, i);
      assert s == p + "[" + a + "]" && s == q + "[" + b + "]";
      NatToStringDigits(i);
      NatToStringDigits(j);
      assert s[|p|] == '[' && s[|q|] == '[';
      assert forall k | |q| < k < |s| - 1 :: s[k] == b[k - |q| - 1];
      assert forall k | |p| < k < |s| - 1 :: s[k] == a[k - |p| - 1];
      assert |a| == |b|;
      assert a == s[|p| + 1..|s| - 1] == b;
      NatToStringInjective(i, j);
      assert p == s[..|p|] == q;
    }
  }

  /** With only scalar items, a list's items bind nothing but their item keys. */
  lemma {:induction false} ScalarItemNames(items: seq<Param>, parentKey: string, index: nat, n: string)
    decreases items
    requires forall j | 0 <= j < |items| :: items[j].Scalar?
    ensures n in ItemNames(items, parentKey, index) ==> exists j | index <= j < index + |items| :: n == ItemKey(parentKey, j)
  {
    if items != [] && n in ItemNames(items, parentKey, index) {
      assert items[0] == Scalar(items[0].text);
      assert Names(ItemKey(parentKey, index), items[0]) == {ItemKey(parentKey, index)};
      if n != ItemKey(parentKey, index) {
        ScalarItemNames(items[1..], parentKey, index + 1, n);
      }
    }
  }

  /** A list of scalars flattened from item `index` on binds item `j` as text
      under `parentKey[index + j]`. */
  lemma {:induction false} ScalarItemsBound(vars: map<string, Variable>, items: seq<Param>, parentKey: string, index: nat)
    decreases items
    requires forall j | 0 <= j < |items| :: items[j].Scalar?
    ensures var r := BindItems(vars, items, parentKey, index);
      && r.ok
      && forall j | index <= j < index + |items| :: ItemKey(parentKey, j) in r.vars
                                                   && r.vars[ItemKey(parentKey, j)] == Text(items[j - index].text)
  {
    if items != [] {
      var key := ItemKey(parentKey, index);
      var next := vars[key := Text(items[0].text)];
      var rest := items[1..];
      assert items[0] == Scalar(items[0].text);
      assert BindValue(vars, key, items[0]) == Bound(next, true);
      ScalarItemsBound(next, rest, parentKey, index + 1);
      var r := BindItems(vars, items, parentKey, index);
      assert r == BindItems(next, rest, parentKey, index + 1);
      ItemsFrame(next, rest, parentKey, index + 1);
      forall k | index + 1 <= k < index + |items| ensures key != ItemKey(parentKey, k) {
        ItemKeyDistinct(parentKey, index, k);
      }
      ScalarItemNames(rest, parentKey, index + 1, key);
      FrameKeep(r.vars, next, ItemNames(rest, parentKey, index + 1), key);
      forall j | index + 1 <= j < index + |items|
        ensures ItemKey(parentKey, j) in r.vars && r.vars[ItemKey(parentKey, j)] == Text(items[j - index].text)
      {
        assert rest[j - (index + 1)] == items[j - index];
      }
    }
  }

  /** A list entry of scalars binds the list itself under its key and each
      item `i` as text under `key[i]`. */
  lemma ScalarListEntryBound(vars: map<string, Variable>, key: string, items: seq<Param>)
    requires forall j | 0 <= j < |items| :: items[j].Scalar?
    ensures var r := BindValue(vars, key, ListParam(items));
      && r.ok
      && key in r.vars && r.vars[key] == Raw(ListParam(items))
      && forall i | 0 <= i < |items| :: ItemKey(key, i) in r.vars && r.vars[ItemKey(key, i)] == Text(items[i].text)
  {
    var start := vars[key := Raw(ListParam(items))];
    var r := BindValue(vars, key, ListParam(items));
    assert r == BindItems(start, items, key, 0);
    ScalarItemsBound(start, items, key, 0);
    ItemsFrame(start, items, key, 0);
    forall j | 0 <= j < |items| ensures key != ItemKey(key, j) {
      ItemKeyDistinct(key, j, j);
    }
    ScalarItemNames(items, key, 0, key);
    FrameKeep(r.vars, start, ItemNames(items, key, 0), key);
  }

  /** A list whose items are all scalars. */
  predicate ScalarList(p: Param) {
    p.ListParam? && forall j | 0 <= j < |p.items| :: p.items[j].Scalar?
  }

  /** What a value is bound to under its own name: a scalar as its text, a
      list or map as is. */
  function SelfBinding(p: Param): (v: Variable)
    ensures v.Text? <==> p.Scalar?
  {
    if p.Scalar? then Text(p.text) else Raw(p)
  }

  /** Item `p` of a list is bound under `name`, and, when it is a list itself,
      its scalar items under `name[j]`. */
  ghost predicate ItemBound(vars: map<string, Variable>, name: string, p: Param) {
    && name in vars && vars[name] == SelfBinding(p)
    && (p.ListParam? ==>
          forall j | 0 <= j < |p.items| && p.items[j].Scalar? ::
            ItemKey(name, j) in vars && vars[ItemKey(name, j)] == Text(p.items[j].text))
  }

  /** The items of a list of scalars and lists of scalars, flattened from
      `index` on, bind neither the list's own name nor the names of an item
      before `index` or of that item's items. */
  lemma {:induction false} NestedItemNamesAvoid(items: seq<Param>, key: string, index: nat, m: nat, j: nat)
    decreases items
    requires forall i | 0 <= i < |items| :: items[i].Scalar? || ScalarList(items[i])
    ensures key !in ItemNames(items, key, index)
    ensures m < index ==> ItemKey(key, m) !in ItemNames(items, key, index)
    ensures m < index ==> ItemKey(ItemKey(key, m), j) !in ItemNames(items, key, index)
  {
    if items != [] {
      var name := ItemKey(key, index);
      NestedItemNamesAvoid(items[1..], key, index + 1, m, j);
      ItemKeyDistinct(key, index, m);
      ItemKeyInjective(key, index, ItemKey(key, m), j);
      forall n | n in Names(name, items[0])
        ensures n != key && (m < index ==> n != ItemKey(key, m) && n != ItemKey(ItemKey(key, m), j))
      {
        if n != name {
          ScalarItemNames(items[0].items, name, 0, n);
          var k :| 0 <= k < |items[0].items| && n == ItemKey(name, k);
          ItemKeyInjective(name, k, key, m);
          ItemKeyInjective(name, k, ItemKey(key, m), j);
        }
      }
    }
  }

  /** Flattening scalars and lists of scalars from item `index` on binds each
      item under `key[i]` and each item of a nested list under `key[i][j]`. */
  lemma {:induction false} NestedItemsBound(vars: map<string, Variable>, items: seq<Param>, key: string, index: nat)
    decreases items
    requires forall i | 0 <= i < |items| :: items[i].Scalar? || ScalarList(items[i])
    ensures var r := BindItems(vars, items, key, index);
      && r.ok
      && forall i | index <= i < index + |items| :: ItemBound(r.vars, ItemKey(key, i), items[i - index])
  {
    if items != [] {
      var name := ItemKey(key, index);
      var first := BindValue(vars, name, items[0]);
      var rest := items[1..];
      if items[0].Scalar? {
        assert first == Bound(vars[name := Text(items[0].text)], true);
      } else {
        ScalarListEntryBound(vars, name, items[0].items);
      }
      assert ItemBound(first.vars, name, items[0]);
      NestedItemsBound(first.vars, rest, key, index + 1);
      var r := BindItems(vars, items, key, index);
      assert r == BindItems(first.vars, rest, key, index + 1);
      ItemsFrame(first.vars, rest, key, index + 1);
      NestedItemNamesAvoid(rest, key, index + 1, index, 0);
      FrameKeep(r.vars, first.vars, ItemNames(rest, key, index + 1), name);
      if items[0].ListParam? {
        forall j | 0 <= j < |items[0].items|
          ensures ItemKey(name, j) in r.vars && r.vars[ItemKey(name, j)] == Text(items[0].items[j].text)
        {
          NestedItemNamesAvoid(rest, key, index + 1, index, j);
          FrameKeep(r.vars, first.vars, ItemNames(rest, key, index + 1), ItemKey(name, j));
        }
      }
      assert ItemBound(r.vars, name, items[0]);
      forall i | index + 1 <= i < index + |items|
        ensures ItemBound(r.vars, ItemKey(key, i), items[i - index])
      {
        assert rest[i - (index + 1)] == items[i - index];
      }
    }
  }

  /** A list entry whose items are scalars or lists of scalars binds the list
      under its key, item `i` under `key[i]` (as text or as the nested list),
      and item `j` of a nested list `i` as text under `key[i][j]`. */
  lemma NestedListEntryBound(vars: map<string, Variable>, key: string, items: seq<Param>)
    requires forall i | 0 <= i < |items| :: items[i].Scalar? || ScalarList(items[i])
    ensures var r := BindValue(vars, key, ListParam(items));
      && r.ok
      && key in r.vars && r.vars[key] == Raw(ListParam(items))
      && (forall i | 0 <= i < |items| && items[i].Scalar? ::
            ItemKey(key, i) in r.vars && r.vars[ItemKey(key, i)] == Text(items[i].text))
      && (forall i | 0 <= i < |items| && items[i].ListParam? ::
            ItemKey(key, i) in r.vars && r.vars[ItemKey(key, i)] == Raw(items[i]))
      && (forall i, j | 0 <= i < |items| && ScalarList(items[i]) && 0 <= j < |items[i].items| ::
            ItemKey(ItemKey(key, i), j) in r.vars && r.vars[ItemKey(ItemKey(key, i), j)] == Text(items[i].items[j].text))
  {
    var start := vars[key := Raw(ListParam(items))];
    var r := BindValue(vars, key, ListParam(items));
    assert r == BindItems(start, items, key, 0);
    NestedItemsBound(start, items, key, 0);
    ItemsFrame(start, items, key, 0);
    NestedItemNamesAvoid(items, key, 0, 0, 0);
    FrameKeep(r.vars, start, ItemNames(items, key, 0), key);
    forall i | 0 <= i < |items| ensures ItemBound(r.vars, ItemKey(key, i), items[i]) {
      assert items[i - 0] == items[i];
    }
  }

  /** Every key of a map's entries is among the names they may bind. */
  lemma {:induction false} KeyInNames(entries: seq<Entry>, j: nat)
    decreases entries
    requires j < |entries|
    ensures entries[j].key in EntryNames(entries)
  {
    if j > 0 {
      KeyInNames(entries[1..], j - 1);
    }
  }

  /** Binding children as is leaves a name that no child has alone. */
  lemma {:induction false} RawKeep(vars: map<string, Variable>, entries: seq<Entry>, n: string)
    decreases entries
    requires forall j | 0 <= j < |entries| :: entries[j].key != n
    ensures n in BindRaw(vars, entries) <==> n in vars
    ensures n in vars ==> BindRaw(vars, entries)[n] == vars[n]
  {
    if entries != [] {
      RawKeep(vars[entries[0].key := Raw(entries[0].value)], entries[1..], n);
    }
  }

  /** Binding children as is leaves the last child of a name bound under it. */
  lemma {:induction false} RawLast(vars: map<string, Variable>, entries: seq<Entry>, i: nat)
    decreases entries
    requires i < |entries|
    requires forall j | i < j < |entries| :: entries[j].key != entries[i].key
    ensures entries[i].key in BindRaw(vars, entries)
    ensures BindRaw(vars, entries)[entries[i].key] == Raw(entries[i].value)
  {
    var next := vars[entries[0].key := Raw(entries[0].value)];
    if i == 0 {
      RawKeep(next, entries[1..], entries[0].key);
    } else {
      RawLast(next, entries[1..], i - 1);
    }
  }

  /** Child `i` of a map is not bound over afterwards: no later child binds
      its name, a list child's items do not, and for a map child, which does
      not rebind its own name, neither its children nor any earlier child do. */
  ghost predicate Hoisted(entries: seq<Entry>, i: nat)
    requires i < |entries|
  {
    var k := entries[i].key;
    && k !in EntryNames(entries[i + 1..])
    && match entries[i].value
       case MapParam(children) => k !in EntryNames(children) && k !in EntryNames(entries[..i])
       case ListParam(items) => k !in ItemNames(items, k, 0)
       case _ => true
  }

  /** A hoisted child ends bound to its text, if a scalar, or to itself. */
  lemma HoistedChild(vars: map<string, Variable>, entries: seq<Entry>, i: nat)
    requires i < |entries| && Hoisted(entries, i)
    requires forall j | 0 <= j < |entries| :: NoNull(entries[j].value)
    ensures var r := BindEntries(BindRaw(vars, entries), entries).vars;
      entries[i].key in r && r[entries[i].key] == SelfBinding(entries[i].value)
  {
    var k, v := entries[i].key, entries[i].value;
    var start := BindRaw(vars, entries);
    var before, after := entries[..i], entries[i + 1..];
    forall j | i < j < |entries| ensures entries[j].key != k {
      assert entries[j] == after[j - i - 1];
      KeyInNames(after, j - i - 1);
    }
    RawLast(vars, entries, i);
    assert entries == before + ([entries[i]] + after);
    EntriesAppend(start, before, [entries[i]] + after);
    EntriesOkIffNoNull(start, before);
    var a := BindEntries(start, before);
    ValueOkIffNoNull(a.vars, k, v);
    var b := BindValue(a.vars, k, v);
    assert ([entries[i]] + after)[0] == entries[i] && ([entries[i]] + after)[1..] == after;
    assert BindEntries(start, entries) == BindEntries(b.vars, after);
    EntriesFrame(b.vars, after);
    FrameKeep(BindEntries(b.vars, after).vars, b.vars, EntryNames(after), k);
    match v
    case Scalar(_) =>
    case ListParam(items) =>
      ItemsFrame(a.vars[k := Raw(v)], items, k, 0);
      FrameKeep(b.vars, a.vars[k := Raw(v)], ItemNames(items, k, 0), k);
    case MapParam(children) =>
      EntriesFrame(start, before);
      FrameKeep(a.vars, start, EntryNames(before), k);
      RawFrame(a.vars, children);
      FrameKeep(BindRaw(a.vars, children), a.vars, EntryNames(children), k);
      EntriesFrame(BindRaw(a.vars, children), children);
      FrameKeep(b.vars, BindRaw(a.vars, children), EntryNames(children), k);
    case Null =>
  }

  /** A map entry hoists its children: each child is bound under its own,
      unprefixed name (as text if a scalar, as itself if a list or map) unless
      something flattened after it binds that name again, and the entry's own
      key is left alone unless the map's contents bind it. */
  lemma MapEntryHoisted(vars: map<string, Variable>, key: string, entries: seq<Entry>)
    requires forall j | 0 <= j < |entries| :: NoNull(entries[j].value)
    ensures var r := BindValue(vars, key, MapParam(entries));
      && r.ok
      && (key !in EntryNames(entries) ==> (key in r.vars <==> key in vars) && (key in vars ==> r.vars[key] == vars[key]))
      && forall i | 0 <= i < |entries| && Hoisted(entries, i) ::
           entries[i].key in r.vars && r.vars[entries[i].key] == SelfBinding(entries[i].value)
  {
    var start := BindRaw(vars, entries);
    var r := BindValue(vars, key, MapParam(entries));
    EntriesOkIffNoNull(start, entries);
    if key !in EntryNames(entries) {
      RawFrame(vars, entries);
      EntriesFrame(start, entries);
      FrameKeep(r.vars, start, EntryNames(entries), key);
      FrameKeep(start, vars, EntryNames(entries), key);
    }
    forall i | 0 <= i < |entries| && Hoisted(entries, i)
      ensures entries[i].key in r.vars && r.vars[entries[i].key] == SelfBinding(entries[i].value)
    {
      HoistedChild(vars, entries, i);
    }
  }

  /** With only scalar values, the names a map's entries bind are their keys. */
  lemma {:induction false} ScalarEntryNames(entries: seq<Entry>)
    requires forall j | 0 <= j < |entries| :: entries[j].value.Scalar?
    ensures EntryNames(entries) == set j | 0 <= j < |entries| :: entries[j].key
  {
    if entries != [] {
      ScalarEntryNames(entries[1..]);
      assert forall j | 1 <= j < |entries| :: entries[j] == entries[1..][j - 1];
      assert forall j | 0 <= j < |entries| - 1 :: entries[1..][j] == entries[j + 1];
    }
  }

  /** The first of some scalar entries keeps its binding when no later entry
      has its key. */
  lemma FirstScalarKept(vars: map<string, Variable>, entries: seq<Entry>)
    requires entries != []
    requires forall j | 0 <= j < |entries| :: entries[j].value.Scalar?
    requires forall j | 0 < j < |entries| :: entries[j].key != entries[0].key
    ensures var r := BindEntries(vars, entries[1..]);
      entries[0].key in vars ==> entries[0].key in r.vars && r.vars[entries[0].key] == vars[entries[0].key]
  {
    var rest := entries[1..];
    EntriesFrame(vars, rest);
    ScalarEntryNames(rest);
    assert entries[0].key !in EntryNames(rest) by {
      forall j | 0 <= j < |rest| ensures rest[j].key != entries[0].key {
        assert rest[j] == entries[j + 1];
      }
    }
    FrameKeep(BindEntries(vars, rest).vars, vars, EntryNames(rest), entries[0].key);
  }

  /** Flattening scalar entries binds each key to the text of its last entry. */
  lemma {:induction false} ScalarEntriesBound(vars: map<string, Variable>, entries: seq<Entry>)
    decreases entries
    requires forall j | 0 <= j < |entries| :: entries[j].value.Scalar?
    ensures var r := BindEntries(vars, entries);
      && r.ok
      && forall i | 0 <= i < |entries| && (forall j | i < j < |entries| :: entries[j].key != entries[i].key) ::
           entries[i].key in r.vars && r.vars[entries[i].key] == Text(entries[i].value.text)
  {
    if entries != [] {
      var e := entries[0];
      var rest := entries[1..];
      var next := vars[e.key := Text(e.value.text)];
      assert e.value == Scalar(e.value.text);
      assert BindValue(vars, e.key, e.value) == Bound(next, true);
      ScalarEntriesBound(next, rest);
      var r := BindEntries(vars, entries);
      assert r == BindEntries(next, rest);
      forall i | 0 <= i < |entries| && (forall j | i < j < |entries| :: entries[j].key != entries[i].key)
        ensures entries[i].key in r.vars && r.vars[entries[i].key] == Text(entries[i].value.text)
      {
        if i == 0 {
          FirstScalarKept(next, entries);
        } else {
          assert rest[i - 1] == entries[i];
          assert forall j | i - 1 < j < |rest| :: rest[j] == entries[j + 1];
        }
      }
    }
  }
}
