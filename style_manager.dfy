/** The style registry of src/styleManager.js. It keeps an ordered list of
    rendered entries (`sheetMap`), an optional order list of sheet names
    (`sheetOrder`) and the current theme, and drives the renderer: first
    render, cache hit, hot-swap of a descriptor under a name already in use,
    reset, rerender after a theme change, and serialisation in index order. */
module StyleManager {
  import opened Js
  import opened Jss
  import SheetOrder

  // ---------------------------------------------------------------------
  // Themes and descriptors

  /** A theme's `id` property: missing, a number (what the registry stamps
      on), or a string a caller put there. */
  datatype ThemeId = NoId | NumId(n: int) | TextId(s: string)

  /** JavaScript truthiness of the `id` property. */
  predicate Truthy(id: ThemeId) {
    match id
    case NoId => false
    case NumId(n) => n != 0
    case TextId(s) => s != ""
  }

  /** `${id}` in a template literal. */
  function IdText(id: ThemeId): string {
    match id
    case NoId => "undefined"
    case NumId(n) => IntToString(n)
    case TextId(s) => s
  }

  /** What a descriptor's `createRules` sees of a theme. */
  datatype ThemeValue = ThemeValue(props: map<string, string>, id: ThemeId)

  /** A theme object. Its properties never change; the registry may stamp an
      `id` onto it. `json` is its `JSON.stringify` text. */
  class Theme {
    const props: map<string, string>
    const json: string
    var id: ThemeId

    constructor (props: map<string, string>, json: string, id: ThemeId)
      ensures this.props == props && this.json == json && this.id == id
    {
      this.props := props;
      this.json := json;
      this.id := id;
    }

    function Value(): ThemeValue
      reads this
    {
      ThemeValue(props, id)
    }
  }

  /** A style-sheet descriptor `{ name, options, createRules }` (flow/types.js).
      The registry tells descriptors apart by reference. */
  class StyleSheet {
    const name: string
    const options: Options
    const createRules: ThemeValue -> Rules

    constructor (name: string, createRules: ThemeValue -> Rules, options: Options)
      ensures this.name == name && this.createRules == createRules && this.options == options
    {
      this.name := name;
      this.createRules := createRules;
      this.options := options;
    }
  }

  /** One rendered sheet: `{ name, classes, styleSheet, jssStyleSheet }`. */
  datatype Mapping = Mapping(name: string, classes: ClassMap, styleSheet: StyleSheet, jssStyleSheet: JssSheet)

  function NameOf(m: Mapping): string { m.name }

  function Names(ms: seq<Mapping>): (r: seq<string>)
    ensures |r| == |ms| && forall i :: 0 <= i < |ms| ==> r[i] == ms[i].name
  {
    seq(|ms|, i requires 0 <= i < |ms| => ms[i].name)
  }

  predicate DistinctNames(ms: seq<Mapping>) {
    forall i, j :: 0 <= i < j < |ms| ==> ms[i].name != ms[j].name
  }

  /** Every entry is named after its descriptor and holds a sheet of `r`. */
  predicate EntriesOf(ms: seq<Mapping>, r: Renderer) {
    forall i :: 0 <= i < |ms| ==> ms[i].name == ms[i].styleSheet.name && ms[i].jssStyleSheet.renderer == r
  }

  /** Appending an entry whose name is not yet taken. */
  lemma AppendFresh(ms: seq<Mapping>, m: Mapping, r: Renderer)
    requires DistinctNames(ms) && EntriesOf(ms, r)
    requires NameIndex(ms, m.name) == -1
    requires m.name == m.styleSheet.name && m.jssStyleSheet.renderer == r
    ensures DistinctNames(ms + [m]) && EntriesOf(ms + [m], r)
  {
    assert m.name !in Names(ms);
    forall j | 0 <= j < |ms| ensures ms[j].name != m.name {
      assert Names(ms)[j] == ms[j].name;
    }
  }

  /** Removing the entry at `i` frees its name and keeps the others. */
  lemma RemoveEntry(ms: seq<Mapping>, i: int, r: Renderer)
    requires DistinctNames(ms) && EntriesOf(ms, r)
    requires 0 <= i < |ms|
    ensures DistinctNames(RemoveAt(ms, i)) && EntriesOf(RemoveAt(ms, i), r)
    ensures NameIndex(RemoveAt(ms, i), ms[i].name) == -1
  {
    var rest := RemoveAt(ms, i);
    assert forall j :: 0 <= j < |rest| ==> rest[j] == (if j < i then ms[j] else ms[j + 1]);
    forall j | 0 <= j < |rest| ensures Names(rest)[j] != ms[i].name {
      if j < i {
        assert rest[j] == ms[j];
      } else {
        assert rest[j] == ms[j + 1];
      }
    }
  }

  lemma CreateAttachAppend(ms: seq<Mapping>, m: Mapping)
    ensures CreateAttachAll(ms + [m]) == CreateAttachAll(ms) + CreateAttach(m)
  {
    assert (ms + [m])[..|ms|] == ms;
  }

  /** During a rerender, the next descriptor's name is not yet taken by the
      entries rendered before it. */
  lemma NextNameIsFree(sheets: seq<Mapping>, ms: seq<Mapping>, k: int, r: Renderer)
    requires DistinctNames(sheets) && EntriesOf(sheets, r)
    requires 0 <= k < |sheets| && |ms| == k
    requires forall j :: 0 <= j < k ==> ms[j].name == sheets[j].styleSheet.name
    ensures NameIndex(ms, sheets[k].styleSheet.name) == -1
  {
    var ns := Names(ms);
    forall j | 0 <= j < k ensures ns[j] != sheets[k].name {
      assert ns[j] == sheets[j].name;
    }
  }

  /** Entries named after the descriptors of `ms`, position by position,
      carry the names of `ms`. */
  lemma SameNames(rendered: seq<Mapping>, ms: seq<Mapping>, r: Renderer)
    requires EntriesOf(ms, r) && |rendered| == |ms|
    requires forall k :: 0 <= k < |ms| ==> rendered[k].name == ms[k].styleSheet.name
    ensures Names(rendered) == Names(ms)
  {
  }

  /** A stable sort of the entries keeps them valid. */
  lemma SortKeepsEntries(ms: seq<Mapping>, r: Renderer)
    requires DistinctNames(ms) && EntriesOf(ms, r)
    ensures DistinctNames(SheetOrder.Sort(ms, SheetIndex)) && EntriesOf(SheetOrder.Sort(ms, SheetIndex), r)
  {
    var t := SheetOrder.Sort(ms, SheetIndex);
    SheetOrder.SortIsPermutation(ms, SheetIndex);
    assert SheetOrder.Distinct(ms, NameOf);
    SheetOrder.SortKeepsDistinct(ms, SheetIndex, NameOf);
    forall i | 0 <= i < |t| ensures t[i].name == t[i].styleSheet.name && t[i].jssStyleSheet.renderer == r {
      assert t[i] in multiset(ms);
      var j :| 0 <= j < |ms| && ms[j] == t[i];
    }
    forall i, j | 0 <= i < j < |t| ensures t[i].name != t[j].name {
      assert NameOf(t[i]) != NameOf(t[j]);
    }
  }

  /** `getMappingIndex` as a value: the position of the entry named `name`. */
  function NameIndex(ms: seq<Mapping>, name: string): int {
    IndexOf(Names(ms), name)
  }

  function RemoveAt(ms: seq<Mapping>, i: int): seq<Mapping> {
    if 0 <= i < |ms| then ms[..i] + ms[i + 1..] else ms
  }

  // ---------------------------------------------------------------------
  // Renderer options

  /** The hydration tag of a sheet: `${name}-${theme.id}`. */
  function Meta(name: string, id: ThemeId): string {
    name + "-" + IdText(id)
  }

  /** Under one theme, distinct sheet names get distinct tags. */
  lemma MetaInjective(a: string, b: string, id: ThemeId)
    requires Meta(a, id) == Meta(b, id)
    ensures a == b
  {
    SuffixCancel(a + "-", b + "-", IdText(id));
    SuffixCancel(a, b, "-");
  }

  /** The order index of a sheet: its name's position in the order list, or
      the list's length when it is not listed. */
  function OrderIndex(order: seq<string>, name: string): (k: nat)
    ensures k <= |order|
    ensures k < |order| ==> order[k] == name && name !in order[..k]
    ensures k == |order| <==> name !in order
  {
    var i := IndexOf(order, name);
    if i == -1 then |order| else i
  }

  /** The options `renderNew` hands to `createStyleSheet`:
      `{ name, meta, ...options }`, then an order index when an order list is
      set and the options carry no `index` of their own. */
  function JssOptions(name: string, meta: string, options: Options, sheetOrder: Option<seq<string>>): Options {
    var merged := map["name" := Text(name), "meta" := Text(meta)] + options;
    if sheetOrder.Some? && "index" !in merged then
      merged["index" := Number(OrderIndex(sheetOrder.value, name))]
    else merged
  }

  /** The descriptor's own options win; `name` and `meta` are filled in when
      missing; an order index is added exactly when an order list is set and
      no own `index` exists; nothing else is added. */
  lemma JssOptionsSpec(name: string, meta: string, options: Options, sheetOrder: Option<seq<string>>)
    ensures var o := JssOptions(name, meta, options, sheetOrder);
            (forall k :: k in options ==> k in o && o[k] == options[k]) &&
            ("name" in o && ("name" !in options ==> o["name"] == Text(name))) &&
            ("meta" in o && ("meta" !in options ==> o["meta"] == Text(meta))) &&
            ("index" in o <==> "index" in options || sheetOrder.Some?) &&
            ("index" !in options && sheetOrder.Some? ==> o["index"] == Number(OrderIndex(sheetOrder.value, name))) &&
            o.Keys == options.Keys + {"name", "meta"} + (if sheetOrder.Some? then {"index"} else {})
  {
  }

  /** The order index in the test suite: with the order `bar, woof, foo`,
      `foo` gets 2, `bar` gets 0, and `woof`, declaring `index: 999`, keeps it. */
  lemma OrderIndexExample(fooOptions: Options)
    requires "index" !in fooOptions
    ensures var order := Some(["bar", "woof", "foo"]);
            JssOptions("foo", "foo-1", fooOptions, order)["index"] == Number(2) &&
            JssOptions("bar", "bar-1", map[], order)["index"] == Number(0) &&
            JssOptions("woof", "woof-1", map["index" := Number(999)], order)["index"] == Number(999)
  {
    var order := ["bar", "woof", "foo"];
    assert IndexOf(order, "foo") == 2 by { assert order[2] == "foo"; assert "foo" !in order[..2]; }
    assert IndexOf(order, "bar") == 0;
  }

  // ---------------------------------------------------------------------
  // The calls a render, a reset and a serialisation make

  function CreateAttach(m: Mapping): seq<Call> {
    [CreateCall(m.jssStyleSheet), AttachCall(m.jssStyleSheet)]
  }

  function CreateAttachAll(ms: seq<Mapping>): seq<Call> {
    if ms == [] then [] else CreateAttachAll(ms[..|ms| - 1]) + CreateAttach(ms[|ms| - 1])
  }

  function DetachAll(ms: seq<Mapping>): (calls: seq<Call>)
    ensures |calls| == |ms| && forall i :: 0 <= i < |ms| ==> calls[i] == DetachCall(ms[i].jssStyleSheet)
  {
    if ms == [] then [] else DetachAll(ms[..|ms| - 1]) + [DetachCall(ms[|ms| - 1].jssStyleSheet)]
  }

  function ToStringAll(ms: seq<Mapping>): seq<Call> {
    if ms == [] then [] else ToStringAll(ms[..|ms| - 1]) + [ToStringCall(ms[|ms| - 1].jssStyleSheet)]
  }

  /** The CSS text of every entry, in order. */
  function Texts(ms: seq<Mapping>): (r: seq<string>)
    ensures |r| == |ms|
  {
    if ms == [] then []
    else
      var s := ms[|ms| - 1].jssStyleSheet;
      Texts(ms[..|ms| - 1]) + [s.renderer.cssText(s.rules, s.options)]
  }

  /** `texts.join('\n')`. */
  function Join(texts: seq<string>): string {
    if texts == [] then ""
    else if |texts| == 1 then texts[0]
    else Join(texts[..|texts| - 1]) + "\n" + texts[|texts| - 1]
  }

  /** The order key of an entry: its sheet's numeric `index` option; an entry
      without one sorts as 0. */
  function SheetIndex(m: Mapping): int {
    var o := m.jssStyleSheet.options;
    if "index" in o && o["index"].Number? then o["index"].n else 0
  }

  predicate AllIndexed(ms: seq<Mapping>) {
    forall i :: 0 <= i < |ms| ==> "index" in ms[i].jssStyleSheet.options && ms[i].jssStyleSheet.options["index"].Number?
  }

  predicate NoneIndexed(ms: seq<Mapping>) {
    forall i :: 0 <= i < |ms| ==> "index" !in ms[i].jssStyleSheet.options
  }

  /** Without any index the comparator calls every pair equal, so the sort
      leaves the entries in render order. */
  lemma UnindexedSheetsKeepRenderOrder(ms: seq<Mapping>)
    requires NoneIndexed(ms)
    ensures SheetOrder.Sort(ms, SheetIndex) == ms
  {
    SheetOrder.SortEqualKeysIsIdentity(ms, SheetIndex, 0);
  }

  /** Names listed in the order list share an order index only when equal. */
  lemma OrderIndexInjective(order: seq<string>, x: string, y: string)
    requires x in order && y in order && OrderIndex(order, x) == OrderIndex(order, y)
    ensures x == y
  {
  }

  /** Names in strictly increasing order-list position. */
  predicate FollowsOrder(names: seq<string>, order: seq<string>) {
    forall i, j :: 0 <= i < j < |names| ==> OrderIndex(order, names[i]) < OrderIndex(order, names[j])
  }

  /** The serialised order follows the order list: when every entry carries
      the order index of its name (the list may also name sheets that were
      never rendered), the sorted entries appear in strictly increasing
      position of their names in the list. The sort loses and adds nothing. */
  lemma SortFollowsSheetOrder(ms: seq<Mapping>, order: seq<string>)
    requires DistinctNames(ms)
    requires forall i :: 0 <= i < |ms| ==> ms[i].name in order && SheetIndex(ms[i]) == OrderIndex(order, ms[i].name)
    ensures multiset(SheetOrder.Sort(ms, SheetIndex)) == multiset(ms)
    ensures FollowsOrder(Names(SheetOrder.Sort(ms, SheetIndex)), order)
  {
    var t := SheetOrder.Sort(ms, SheetIndex);
    SheetOrder.SortIsPermutation(ms, SheetIndex);
    SheetOrder.SortIsSorted(ms, SheetIndex);
    assert forall i :: 0 <= i < |t| ==> t[i].name in order && SheetIndex(t[i]) == OrderIndex(order, t[i].name) by {
      forall i | 0 <= i < |t| ensures t[i].name in order && SheetIndex(t[i]) == OrderIndex(order, t[i].name) {
        assert t[i] in multiset(ms);
        var k :| 0 <= k < |ms| && ms[k] == t[i];
      }
    }
    assert DistinctNames(t) by {
      assert SheetOrder.Distinct(ms, NameOf);
      SheetOrder.SortKeepsDistinct(ms, SheetIndex, NameOf);
      forall i, j | 0 <= i < j < |t| ensures t[i].name != t[j].name {
        assert NameOf(t[i]) != NameOf(t[j]);
      }
    }
    SortedByOrderIndex(t, order);
  }

  /** Entries sorted by their names' order indices, with distinct listed
      names, follow the order list strictly. */
  lemma SortedByOrderIndex(t: seq<Mapping>, order: seq<string>)
    requires SheetOrder.Sorted(t, SheetIndex) && DistinctNames(t)
    requires forall i :: 0 <= i < |t| ==> t[i].name in order && SheetIndex(t[i]) == OrderIndex(order, t[i].name)
    ensures FollowsOrder(Names(t), order)
  {
    var n := Names(t);
    forall i, j | 0 <= i < j < |n| ensures OrderIndex(order, n[i]) < OrderIndex(order, n[j]) {
      assert SheetIndex(t[i]) <= SheetIndex(t[j]);
      assert order[OrderIndex(order, n[i])] == n[i] && order[OrderIndex(order, n[j])] == n[j];
    }
  }

  /** Every name of listed entries is listed. */
  lemma NamesListed(ms: seq<Mapping>, order: seq<string>)
    requires forall i :: 0 <= i < |ms| ==> ms[i].name in order
    ensures forall x :: x in Names(ms) ==> x in order
  {
    forall x | x in Names(ms) ensures x in order {
      var i :| 0 <= i < |ms| && Names(ms)[i] == x;
    }
  }

  /** When the order list names exactly the rendered sheets, each once, the
      serialised order is the order list itself. */
  lemma {:induction false} SortedNamesFollowSheetOrder(ms: seq<Mapping>, order: seq<string>)
    requires DistinctNames(ms)
    requires forall i, j :: 0 <= i < j < |order| ==> order[i] != order[j]
    requires |ms| == |order|
    requires forall i :: 0 <= i < |ms| ==> ms[i].name in order && SheetIndex(ms[i]) == OrderIndex(order, ms[i].name)
    ensures Names(SheetOrder.Sort(ms, SheetIndex)) == order
  {
    forall i, j | 0 <= i < j < |ms| ensures SheetIndex(ms[i]) != SheetIndex(ms[j]) {
      var a, b := OrderIndex(order, ms[i].name), OrderIndex(order, ms[j].name);
      assert order[a] == ms[i].name && order[b] == ms[j].name;
    }
    SheetOrder.SortByPosition(ms, SheetIndex);
    var t := SheetOrder.Sort(ms, SheetIndex);
    SheetOrder.SortIsPermutation(ms, SheetIndex);
    forall k | 0 <= k < |t| ensures t[k].name == order[k] {
      assert t[k] in multiset(ms);
      var j :| 0 <= j < |ms| && ms[j] == t[k];
      assert OrderIndex(order, t[k].name) == k;
    }
  }

  /** Dropping the last of names in increasing position removes exactly that
      name. */
  lemma DropLastName(a: seq<string>, order: seq<string>)
    requires |a| > 0 && FollowsOrder(a, order)
    ensures FollowsOrder(a[..|a| - 1], order)
    ensures forall x :: x in a[..|a| - 1] <==> x in a && x != a[|a| - 1]
    ensures a == a[..|a| - 1] + [a[|a| - 1]]
  {
    var p := a[..|a| - 1];
    forall x | x in p ensures x in a && x != a[|a| - 1] {
      var i :| 0 <= i < |p| && p[i] == x;
      assert a[i] == x;
    }
    forall x | x in a && x != a[|a| - 1] ensures x in p {
      var i :| 0 <= i < |a| && a[i] == x;
      assert p[i] == x;
    }
  }

  /** Only one arrangement of a set of listed names follows the order list. */
  lemma {:induction false} FollowsOrderUnique(a: seq<string>, b: seq<string>, order: seq<string>)
    requires forall x :: x in a ==> x in order
    requires FollowsOrder(a, order) && FollowsOrder(b, order)
    requires forall x :: x in a <==> x in b
    ensures a == b
    decreases |a|
  {
    SameMembersSameEmptiness(a, b);
    if |a| > 0 {
      var la, lb := a[|a| - 1], b[|b| - 1];
      assert OrderIndex(order, la) <= OrderIndex(order, lb) by {
        assert la in a;
        var p :| 0 <= p < |b| && b[p] == la;
        if p < |b| - 1 {
          assert OrderIndex(order, b[p]) < OrderIndex(order, b[|b| - 1]);
        }
      }
      assert OrderIndex(order, lb) <= OrderIndex(order, la) by {
        assert lb in b;
        var q :| 0 <= q < |a| && a[q] == lb;
        if q < |a| - 1 {
          assert OrderIndex(order, a[q]) < OrderIndex(order, a[|a| - 1]);
        }
      }
      assert la in a && lb in b;
      OrderIndexInjective(order, la, lb);
      DropLastName(a, order);
      DropLastName(b, order);
      var a', b' := a[..|a| - 1], b[..|b| - 1];
      forall x ensures x in a' <==> x in b' {
        assert x in a' <==> x in a && x != la;
        assert x in b' <==> x in b && x != lb;
      }
      FollowsOrderUnique(a', b', order);
    }
  }

  lemma SameMembersSameEmptiness(a: seq<string>, b: seq<string>)
    requires forall x :: x in a <==> x in b
    ensures |a| == 0 <==> |b| == 0
  {
    if |a| > 0 {
      assert a[0] in a;
    }
    if |b| > 0 {
      assert b[0] in b;
    }
  }

  /** `order` back to front. */
  function Reverse(order: seq<string>): (rev: seq<string>)
    ensures |rev| == |order|
    ensures forall i :: 0 <= i < |order| ==> rev[i] == order[|order| - 1 - i]
  {
    seq(|order|, i requires 0 <= i < |order| => order[|order| - 1 - i])
  }

  /** In a list that names each sheet once, a name's position from the front
      of the reversed list is its position from the back of the list. */
  lemma ReverseOrderIndex(order: seq<string>, x: string)
    requires forall i, j :: 0 <= i < j < |order| ==> order[i] != order[j]
    requires x in order
    ensures x in Reverse(order)
    ensures OrderIndex(Reverse(order), x) == |order| - 1 - OrderIndex(order, x)
  {
    var k := OrderIndex(order, x);
    var rev := Reverse(order);
    assert rev[|order| - 1 - k] == x;
    var r := OrderIndex(rev, x);
    assert order[|order| - 1 - r] == x;
  }

  /** Entries that are a permutation of each other carry the same names. */
  lemma NamesOfPermutation(ms: seq<Mapping>, t: seq<Mapping>)
    requires multiset(t) == multiset(ms)
    ensures forall x :: x in Names(t) <==> x in Names(ms)
  {
    forall x | x in Names(t) ensures x in Names(ms) {
      var i :| 0 <= i < |t| && Names(t)[i] == x;
      assert t[i] in multiset(ms);
      var k :| 0 <= k < |ms| && ms[k] == t[i];
      assert Names(ms)[k] == x;
    }
    forall x | x in Names(ms) ensures x in Names(t) {
      var k :| 0 <= k < |ms| && Names(ms)[k] == x;
      assert ms[k] in multiset(t);
      var i :| 0 <= i < |t| && t[i] == ms[k];
      assert Names(t)[i] == x;
    }
  }

  /** Names in increasing position of the reversed list, read back to front,
      are in increasing position of the list. */
  lemma ReverseFollowsOrder(names: seq<string>, order: seq<string>)
    requires forall i, j :: 0 <= i < j < |order| ==> order[i] != order[j]
    requires forall x :: x in names ==> x in order
    requires FollowsOrder(names, Reverse(order))
    ensures FollowsOrder(Reverse(names), order)
  {
    var rev := Reverse(order);
    var b := Reverse(names);
    var m := |names|;
    forall k | 0 <= k < m ensures OrderIndex(order, b[k]) == |order| - 1 - OrderIndex(rev, names[m - 1 - k]) {
      assert b[k] == names[m - 1 - k] && names[m - 1 - k] in names;
      ReverseOrderIndex(order, names[m - 1 - k]);
    }
    forall i, j | 0 <= i < j < m ensures OrderIndex(order, b[i]) < OrderIndex(order, b[j]) {
      assert OrderIndex(rev, names[m - 1 - j]) < OrderIndex(rev, names[m - 1 - i]);
    }
  }

  /** Reversing keeps the members and undoes itself. */
  lemma ReverseMembers(names: seq<string>)
    ensures forall x :: x in Reverse(names) <==> x in names
    ensures Reverse(Reverse(names)) == names
  {
    var b := Reverse(names);
    var m := |names|;
    forall x | x in b ensures x in names {
      var i :| 0 <= i < m && b[i] == x;
      assert names[m - 1 - i] == x;
    }
    forall x | x in names ensures x in b {
      var i :| 0 <= i < m && names[i] == x;
      assert b[m - 1 - i] == x;
    }
  }

  /** Reversing the order list reverses the serialised order: two registries
      holding sheets of the same names, one indexed by the order list and the
      other by its reverse, serialise them in opposite orders. The list may
      name sheets that neither registry rendered. */
  lemma ReversedOrderReversesSheets(ms1: seq<Mapping>, ms2: seq<Mapping>, order: seq<string>)
    requires DistinctNames(ms1) && DistinctNames(ms2)
    requires forall i, j :: 0 <= i < j < |order| ==> order[i] != order[j]
    requires forall x :: x in Names(ms1) <==> x in Names(ms2)
    requires forall i :: 0 <= i < |ms1| ==> ms1[i].name in order && SheetIndex(ms1[i]) == OrderIndex(order, ms1[i].name)
    requires forall i :: 0 <= i < |ms2| ==>
               ms2[i].name in Reverse(order) && SheetIndex(ms2[i]) == OrderIndex(Reverse(order), ms2[i].name)
    ensures Names(SheetOrder.Sort(ms2, SheetIndex)) == Reverse(Names(SheetOrder.Sort(ms1, SheetIndex)))
  {
    var t1, t2 := SheetOrder.Sort(ms1, SheetIndex), SheetOrder.Sort(ms2, SheetIndex);
    var n1, n2 := Names(t1), Names(t2);
    assert FollowsOrder(n1, order) && forall x :: x in n1 ==> x in order by {
      SortFollowsSheetOrder(ms1, order);
      NamesOfPermutation(ms1, t1);
      NamesListed(ms1, order);
    }
    assert FollowsOrder(n2, Reverse(order)) && forall x :: x in n2 ==> x in order by {
      SortFollowsSheetOrder(ms2, Reverse(order));
      NamesOfPermutation(ms2, t2);
      NamesListed(ms2, Reverse(order));
      ReverseMembers(order);
    }
    assert forall x :: x in n1 <==> x in n2 by {
      SortFollowsSheetOrder(ms1, order);
      SortFollowsSheetOrder(ms2, Reverse(order));
      NamesOfPermutation(ms1, t1);
      NamesOfPermutation(ms2, t2);
    }
    ReverseFollowsOrder(n2, order);
    ReverseMembers(n2);
    FollowsOrderUnique(n1, Reverse(n2), order);
  }

  // ---------------------------------------------------------------------
  // The registry

  /** `createStyleManager({ jss, theme = {} })`: fails without a renderer. */
  method CreateStyleManager(jss: Option<Renderer>, theme: Option<Theme>, hash: string -> nat)
      returns (r: Result<Manager>)
    modifies if theme.Some? then {theme.value} else {}
    ensures r.Err? <==> jss.None?
    ensures r.Err? ==> r.error == Error("No JSS instance provided")
    ensures r.Err? && theme.Some? ==> theme.value.id == old(theme.value.id)
    ensures r.Ok? ==> fresh(r.value) && r.value.Valid() && r.value.jss == jss.value && r.value.hash == hash
    ensures r.Ok? ==> r.value.sheetMap == [] && r.value.sheetOrder == None && r.value.initialTheme == r.value.theme
    ensures r.Ok? && theme.Some? ==> r.value.theme == theme.value
    ensures r.Ok? && theme.None? ==> fresh(r.value.theme) && r.value.theme.props == map[] && r.value.theme.json == "{}"
    ensures r.Ok? && theme.Some? ==>
              theme.value.id == if Truthy(old(theme.value.id)) then old(theme.value.id) else NumId(hash(theme.value.json))
    ensures r.Ok? && theme.None? ==> r.value.theme.id == NumId(hash("{}"))
  {
    if jss.None? {
      return Err(Error("No JSS instance provided"));
    }
    var t: Theme;
    if theme.Some? {
      t := theme.value;
    } else {
      t := new Theme(map[], "{}", NoId);
    }
    var m := new Manager(jss.value, t, hash);
    return Ok(m);
  }

  class Manager {
    const jss: Renderer
    const hash: string -> nat
    /** The `theme` binding of `createStyleManager`, which `generateClassName`
        keeps reading after `updateTheme` has replaced `styleManager.theme`. */
    const initialTheme: Theme
    var sheetMap: seq<Mapping>
    var sheetOrder: Option<seq<string>>
    var theme: Theme

    /** At most one entry per name; every entry is named after its descriptor
        and its sheet belongs to this registry's renderer. */
    ghost predicate Valid()
      reads this
    {
      DistinctNames(sheetMap) && EntriesOf(sheetMap, jss)
    }

    /** `m` is the entry `renderNew` makes for `s` under theme `th` and order
        list `order`. */
    ghost predicate Rendered(m: Mapping, s: StyleSheet, th: ThemeValue, order: Option<seq<string>>) {
      m.name == s.name && m.styleSheet == s && m.jssStyleSheet.renderer == jss &&
      m.jssStyleSheet.rules == s.createRules(th) &&
      m.jssStyleSheet.options == JssOptions(s.name, Meta(s.name, th.id), s.options, order) &&
      m.classes == jss.classNames(m.jssStyleSheet.rules, m.jssStyleSheet.options)
    }

    constructor (jss: Renderer, theme: Theme, hash: string -> nat)
      modifies theme
      ensures Valid() && this.jss == jss && this.hash == hash
      ensures initialTheme == theme && this.theme == theme
      ensures sheetMap == [] && sheetOrder == None
      ensures theme.id == if Truthy(old(theme.id)) then old(theme.id) else NumId(hash(theme.json))
    {
      this.jss := jss;
      this.hash := hash;
      initialTheme := theme;
      sheetMap := [];
      sheetOrder := None;
      this.theme := theme;
      new;
      UpdateTheme(theme, false);
    }

    /** `render(styleSheet)`: a cache hit when the entry under the descriptor's
        name holds this very descriptor; otherwise the old entry, if any, is
        removed from the renderer and the list (hot-swap) and a new one is
        rendered at the end. */
    method Render(styleSheet: StyleSheet) returns (classes: ClassMap)
      requires Valid()
      modifies this, jss
      ensures Valid() && theme == old(theme) && sheetOrder == old(sheetOrder)
      ensures var i := NameIndex(old(sheetMap), styleSheet.name);
              i >= 0 && old(sheetMap)[i].styleSheet == styleSheet ==>
                classes == old(sheetMap)[i].classes && sheetMap == old(sheetMap) && jss.log == old(jss.log)
      ensures var i := NameIndex(old(sheetMap), styleSheet.name);
              i == -1 ==>
                |sheetMap| == |old(sheetMap)| + 1 && sheetMap == old(sheetMap) + [sheetMap[|old(sheetMap)|]] &&
                var m := sheetMap[|old(sheetMap)|];
                classes == m.classes && Rendered(m, styleSheet, theme.Value(), sheetOrder) &&
                fresh(m.jssStyleSheet) && jss.log == old(jss.log) + CreateAttach(m)
      ensures var i := NameIndex(old(sheetMap), styleSheet.name);
              i >= 0 && old(sheetMap)[i].styleSheet != styleSheet ==>
                |sheetMap| == |old(sheetMap)| && sheetMap == RemoveAt(old(sheetMap), i) + [sheetMap[|sheetMap| - 1]] &&
                var m := sheetMap[|sheetMap| - 1];
                classes == m.classes && Rendered(m, styleSheet, theme.Value(), sheetOrder) &&
                fresh(m.jssStyleSheet) &&
                jss.log == old(jss.log) + [RemoveCall(old(sheetMap)[i].jssStyleSheet)] + CreateAttach(m)
    {
      var index := GetMappingIndex(styleSheet.name);
      if index == -1 {
        classes := RenderNew(styleSheet);
        return;
      }
      var mapping := sheetMap[index];
      if mapping.styleSheet != styleSheet {
        RemoveEntry(sheetMap, index, jss);
        jss.RemoveStyleSheet(mapping.jssStyleSheet);
        sheetMap := sheetMap[..index] + sheetMap[index + 1..];
        classes := RenderNew(styleSheet);
        return;
      }
      classes := mapping.classes;
    }

    /** `getClasses(styleSheet)`: the classes of the first entry holding this
        very descriptor, or null. */
    method GetClasses(styleSheet: StyleSheet) returns (r: Option<ClassMap>)
      ensures r.None? <==> forall i :: 0 <= i < |sheetMap| ==> sheetMap[i].styleSheet != styleSheet
      ensures r.Some? ==> exists i :: 0 <= i < |sheetMap| && sheetMap[i].styleSheet == styleSheet &&
                            r.value == sheetMap[i].classes &&
                            (forall j :: 0 <= j < i ==> sheetMap[j].styleSheet != styleSheet)
    {
      var i := 0;
      while i < |sheetMap|
        invariant 0 <= i <= |sheetMap|
        invariant forall j :: 0 <= j < i ==> sheetMap[j].styleSheet != styleSheet
      {
        if sheetMap[i].styleSheet == styleSheet {
          return Some(sheetMap[i].classes);
        }
        i := i + 1;
      }
      return None;
    }

    /** `renderNew(styleSheet)`: create and attach a sheet, append its entry. */
    method RenderNew(styleSheet: StyleSheet) returns (classes: ClassMap)
      requires Valid() && NameIndex(sheetMap, styleSheet.name) == -1
      modifies this, jss
      ensures Valid() && theme == old(theme) && sheetOrder == old(sheetOrder)
      ensures |sheetMap| > 0 && sheetMap == old(sheetMap) + [sheetMap[|sheetMap| - 1]]
      ensures var m := sheetMap[|sheetMap| - 1];
              classes == m.classes && Rendered(m, styleSheet, theme.Value(), sheetOrder) &&
              fresh(m.jssStyleSheet) && jss.log == old(jss.log) + CreateAttach(m)
    {
      var name := styleSheet.name;
      var sheetMeta := Meta(name, theme.id);
      var rules := styleSheet.createRules(theme.Value());
      var jssOptions := JssOptions(name, sheetMeta, styleSheet.options, sheetOrder);
      var jssStyleSheet := jss.CreateStyleSheet(rules, jssOptions);
      classes := jssStyleSheet.Attach();
      var m := Mapping(name, classes, styleSheet, jssStyleSheet);
      AppendFresh(sheetMap, m, jss);
      sheetMap := sheetMap + [m];
    }

    /** `getMappingIndex(name)`: the position of the entry with that name, or -1. */
    method GetMappingIndex(name: string) returns (index: int)
      ensures index == NameIndex(sheetMap, name)
      ensures -1 <= index < |sheetMap|
      ensures index >= 0 ==> sheetMap[index].name == name
      ensures index == -1 <==> forall j :: 0 <= j < |sheetMap| ==> sheetMap[j].name != name
    {
      var i := 0;
      while i < |sheetMap|
        invariant 0 <= i <= |sheetMap|
        invariant forall j :: 0 <= j < i ==> sheetMap[j].name != name
      {
        if sheetMap[i].name == name {
          assert name !in Names(sheetMap)[..i];
          return i;
        }
        i := i + 1;
      }
      return -1;
    }

    /** `setSheetOrder(sheetNames)`. */
    method SetSheetOrder(sheetNames: seq<string>)
      modifies this
      ensures sheetOrder == Some(sheetNames)
      ensures sheetMap == old(sheetMap) && theme == old(theme)
    {
      sheetOrder := Some(sheetNames);
    }

    /** `updateTheme(newTheme, shouldUpdate = true)`: install the theme, stamp
        an id on it when it has none, and rerender unless told not to. */
    method UpdateTheme(newTheme: Theme, shouldUpdate: bool)
      requires Valid()
      modifies this, newTheme, if shouldUpdate then {jss} else {}
      ensures Valid() && theme == newTheme && sheetOrder == old(sheetOrder)
      ensures newTheme.id == if Truthy(old(newTheme.id)) then old(newTheme.id) else NumId(hash(newTheme.json))
      ensures !shouldUpdate ==> sheetMap == old(sheetMap) && jss.log == old(jss.log)
      ensures shouldUpdate ==>
                Names(sheetMap) == Names(old(sheetMap)) &&
                (forall k :: 0 <= k < |sheetMap| ==>
                   Rendered(sheetMap[k], old(sheetMap)[k].styleSheet, newTheme.Value(), sheetOrder) &&
                   fresh(sheetMap[k].jssStyleSheet)) &&
                jss.log == old(jss.log) + DetachAll(old(sheetMap)) + CreateAttachAll(sheetMap)
    {
      theme := newTheme;
      if !Truthy(theme.id) {
        theme.id := NumId(hash(theme.json));
      }
      if shouldUpdate {
        Rerender();
      }
    }

    /** `reset()`: detach every sheet, in order, and empty the list. */
    method Reset()
      requires Valid()
      modifies this, jss
      ensures Valid() && sheetMap == [] && theme == old(theme) && sheetOrder == old(sheetOrder)
      ensures jss.log == old(jss.log) + DetachAll(old(sheetMap))
    {
      var k := 0;
      while k < |sheetMap|
        invariant 0 <= k <= |sheetMap|
        invariant Valid() && sheetMap == old(sheetMap) && theme == old(theme) && sheetOrder == old(sheetOrder)
        invariant jss.log == old(jss.log) + DetachAll(sheetMap[..k])
      {
        assert sheetMap[..k + 1][..k] == sheetMap[..k];
        sheetMap[k].jssStyleSheet.Detach();
        k := k + 1;
      }
      assert sheetMap[..k] == sheetMap;
      sheetMap := [];
    }

    /** `rerender()`: reset, then render every former descriptor again in its
        former order. */
    method Rerender()
      requires Valid()
      modifies this, jss
      ensures Valid() && theme == old(theme) && sheetOrder == old(sheetOrder)
      ensures |sheetMap| == |old(sheetMap)| && Names(sheetMap) == Names(old(sheetMap))
      ensures forall k :: 0 <= k < |sheetMap| ==>
                Rendered(sheetMap[k], old(sheetMap)[k].styleSheet, theme.Value(), sheetOrder) &&
                fresh(sheetMap[k].jssStyleSheet)
      ensures jss.log == old(jss.log) + DetachAll(old(sheetMap)) + CreateAttachAll(sheetMap)
    {
      var sheets := sheetMap;
      assert DistinctNames(sheets) && EntriesOf(sheets, jss);
      Reset();
      ghost var detached := jss.log;
      ghost var th := theme.Value();
      ghost var calls: seq<Call> := [];
      var k := 0;
      while k < |sheets|
        invariant 0 <= k <= |sheets| && |sheetMap| == k
        invariant Valid() && theme == old(theme) && sheetOrder == old(sheetOrder) && theme.Value() == th
        invariant forall j :: 0 <= j < k ==>
                    Rendered(sheetMap[j], sheets[j].styleSheet, th, sheetOrder) && fresh(sheetMap[j].jssStyleSheet)
        invariant jss.log == detached + calls && calls == CreateAttachAll(sheetMap)
      {
        NextNameIsFree(sheets, sheetMap, k, jss);
        ghost var before := sheetMap;
        ghost var logBefore := jss.log;
        var _ := Render(sheets[k].styleSheet);
        var m := sheetMap[k];
        assert sheetMap == before + [m];
        assert Rendered(m, sheets[k].styleSheet, th, sheetOrder) && fresh(m.jssStyleSheet);
        forall j | 0 <= j < k + 1
          ensures Rendered(sheetMap[j], sheets[j].styleSheet, th, sheetOrder) && fresh(sheetMap[j].jssStyleSheet)
        {
          if j < k {
            assert sheetMap[j] == before[j];
          }
        }
        CreateAttachAppend(before, m);
        AppendAssociative(detached, calls, CreateAttach(m));
        calls := calls + CreateAttach(m);
        k := k + 1;
      }
      SameNames(sheetMap, sheets, jss);
    }

    /** `sheetsToString()`: sort the list itself by sheet index (stable), then
        join the sheets' CSS texts with newlines. The comparator is an order
        only when every entry has a numeric index or none has one. */
    method SheetsToString() returns (text: string)
      requires Valid()
      requires AllIndexed(sheetMap) || NoneIndexed(sheetMap)
      modifies this, jss
      ensures Valid() && theme == old(theme) && sheetOrder == old(sheetOrder)
      ensures sheetMap == SheetOrder.Sort(old(sheetMap), SheetIndex)
      ensures text == Join(Texts(sheetMap))
      ensures jss.log == old(jss.log) + ToStringAll(sheetMap)
    {
      SortKeepsEntries(sheetMap, jss);
      sheetMap := SheetOrder.Sort(sheetMap, SheetIndex);
      var sheets := sheetMap;
      var texts: seq<string> := [];
      var k := 0;
      while k < |sheets|
        invariant 0 <= k <= |sheets|
        invariant sheetMap == sheets && Valid() && theme == old(theme) && sheetOrder == old(sheetOrder)
        invariant texts == Texts(sheets[..k])
        invariant jss.log == old(jss.log) + ToStringAll(sheets[..k])
      {
        assert sheets[..k + 1][..k] == sheets[..k];
        var css := sheets[k].jssStyleSheet.ToText();
        texts := texts + [css];
        k := k + 1;
      }
      assert sheets[..k] == sheets;
      text := Join(texts);
    }

    /** The decimal text of the hash of the construction-time theme's id. */
    function ThemeHash(): string
      reads initialTheme
    {
      NatToString(hash(IdText(initialTheme.id)))
    }

    /** The class-name callback installed on the renderer
        (src/styleManager.js:23-32): `[sheetName-]ruleName-hash`, or
        `[sheetName-]hash` for a rule without a name; an empty `ruleName` or
        `sheetName` stands for a missing one. The name always ends with the
        theme hash, starts with the sheet name and a dash when there is a
        sheet name, else with the rule name and a dash when there is one, and
        is exactly the hash when there is neither. */
    function GenerateClassName(ruleName: string, sheetName: string): (name: string)
      reads initialTheme
      ensures |name| == |ThemeHash()| + (if ruleName != "" then |ruleName| + 1 else 0) +
                        (if sheetName != "" then |sheetName| + 1 else 0)
      ensures name[|name| - |ThemeHash()|..] == ThemeHash()
      ensures sheetName != "" ==> name[..|sheetName| + 1] == sheetName + "-"
      ensures sheetName == "" && ruleName != "" ==> name[..|ruleName| + 1] == ruleName + "-"
      ensures sheetName == "" && ruleName == "" ==> name == ThemeHash()
    {
      var h := ThemeHash();
      var str := if ruleName != "" then ruleName + "-" + h else h;
      assert str[|str| - |h|..] == h;
      if sheetName != "" then
        var p := sheetName + "-";
        assert (p + str)[..|p|] == p;
        assert (p + str)[|p + str| - |h|..] == str[|str| - |h|..];
        p + str
      else str
    }

    /** Within one sheet, rules with different names get different class names. */
    lemma ClassNamesDistinctWithinSheet(rule1: string, rule2: string, sheetName: string)
      requires rule1 != rule2
      ensures GenerateClassName(rule1, sheetName) != GenerateClassName(rule2, sheetName)
    {
      var h := ThemeHash();
      var prefix := if sheetName != "" then sheetName + "-" else "";
      var s1 := if rule1 != "" then rule1 + "-" + h else h;
      var s2 := if rule2 != "" then rule2 + "-" + h else h;
      assert GenerateClassName(rule1, sheetName) == prefix + s1;
      assert GenerateClassName(rule2, sheetName) == prefix + s2;
      if rule1 != "" && rule2 != "" {
        if s1 == s2 {
          SuffixCancel(rule1 + "-", rule2 + "-", h);
          SuffixCancel(rule1, rule2, "-");
        }
      } else {
        assert |s1| != |s2|;
      }
      if prefix + s1 == prefix + s2 {
        PrefixCancel(prefix, s1, s2);
      }
    }

    /** Rendering the same descriptor twice in a row: the second call is a
        cache hit that returns the same classes and makes no renderer call. */
    method RenderTwice(styleSheet: StyleSheet) returns (first: ClassMap, second: ClassMap)
      requires Valid()
      modifies this, jss
      ensures Valid() && first == second
      ensures NameIndex(sheetMap, styleSheet.name) >= 0
      ensures var i := NameIndex(old(sheetMap), styleSheet.name);
              if i >= 0 && old(sheetMap)[i].styleSheet == styleSheet then jss.log == old(jss.log)
              else jss.log == old(jss.log) + (if i >= 0 then [RemoveCall(old(sheetMap)[i].jssStyleSheet)] else []) +
                              CreateAttach(sheetMap[|sheetMap| - 1])
    {
      first := Render(styleSheet);
      ghost var afterFirst := sheetMap;
      ghost var logAfterFirst := jss.log;
      assert sheetMap[NameIndex(sheetMap, styleSheet.name)].styleSheet == styleSheet by {
        var i := NameIndex(old(sheetMap), styleSheet.name);
        if !(i >= 0 && old(sheetMap)[i].styleSheet == styleSheet) {
          assert sheetMap[|sheetMap| - 1].name == styleSheet.name;
          assert Names(sheetMap)[|sheetMap| - 1] == styleSheet.name;
        }
      }
      second := Render(styleSheet);
    }
  }
}
