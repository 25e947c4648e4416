/** The page translator of js/translator.js: which elements are sent for translation and under
    which keys, how returned translations are written back, and how the current language and the
    language toggle change. The DOM is a sequence of nodes in document order; the six
    `querySelectorAll` results are given as positions into it; the backend round trip is a
    function from the request to a reply. */
module Translator {
  import opened Wrappers
  import opened JsString

  const ToggleId := "language-toggle"

  /** A DOM element as the translator sees it: its `textContent`, whether it carries the
      `no-translate` class, whether an ancestor does, its `id`, and its `data-translate-key`. */
  datatype Node = Node(text: string, noTranslateClass: bool, insideNoTranslate: bool, id: string,
                       translateKey: Option<string>)

  /** `el.closest('.no-translate')`: the element itself or one of its ancestors has the class. */
  predicate ClosestNoTranslate(n: Node) {
    n.noTranslateClass || n.insideNoTranslate
  }

  /** The `shouldTranslate` helper. */
  predicate ShouldTranslate(n: Node) {
    Trim(n.text) != [] && !n.noTranslateClass && !ClosestNoTranslate(n) && n.id != ToggleId
  }

  /** The six element groups, in the order they are collected. */
  datatype Kind = Heading | Paragraph | Button | NavLink | Label | Lead

  /** The key prefix of each group. */
  function Prefix(k: Kind): (p: string)
    ensures |p| > 0 && '_' !in p
    ensures forall i :: 0 <= i < |p| ==> 'a' <= p[i] <= 'z'
  {
    match k
    case Heading => "heading"
    case Paragraph => "para"
    case Button => "btn"
    case NavLink => "nav"
    case Label => "label"
    case Lead => "div"
  }

  /** The group whose prefix is `p`, if any. */
  function KindOfPrefix(p: string): (k: Option<Kind>)
    ensures k.Some? ==> Prefix(k.value) == p
  {
    if p == "heading" then Some(Heading)
    else if p == "para" then Some(Paragraph)
    else if p == "btn" then Some(Button)
    else if p == "nav" then Some(NavLink)
    else if p == "label" then Some(Label)
    else if p == "div" then Some(Lead)
    else None
  }

  /** Position of a group in the collection order. */
  function Rank(k: Kind): nat {
    match k
    case Heading => 0
    case Paragraph => 1
    case Button => 2
    case NavLink => 3
    case Label => 4
    case Lead => 5
  }

  /** Whether a node returned by the query for group `k` is collected. Buttons come from
      `button:not(#language-toggle):not(.no-translate)` followed by a text and `closest` test;
      nav links from `.nav-link:not(.no-translate)` followed by a text and id test; every other
      group from its plain selector followed by `shouldTranslate`. */
  predicate Collects(k: Kind, n: Node) {
    match k
    case Button => n.id != ToggleId && !n.noTranslateClass && Trim(n.text) != [] && !ClosestNoTranslate(n)
    case NavLink => !n.noTranslateClass && Trim(n.text) != [] && n.id != ToggleId
    case _ => ShouldTranslate(n)
  }

  /** An element is skipped exactly when its trimmed text is empty, it has the `no-translate`
      class, it sits inside a `no-translate` container, or it is the toggle; nav links skip the
      container check. */
  lemma CollectsExactly(k: Kind, n: Node)
    ensures Collects(k, n) <==>
              && !AllSpace(n.text) && !n.noTranslateClass && n.id != ToggleId
              && (k == NavLink || !n.insideNoTranslate)
  {
  }

  /** Results of the six `querySelectorAll` calls, as document positions. */
  datatype Queries = Queries(headings: seq<nat>, paragraphs: seq<nat>, buttons: seq<nat>,
                             navLinks: seq<nat>, labels: seq<nat>, leads: seq<nat>)

  /** One iteration of one of the six `forEach` loops: the group and the visited node. */
  datatype Visit = Visit(kind: Kind, pos: nat)

  function Tagged(k: Kind, ps: seq<nat>): (vs: seq<Visit>)
    ensures |vs| == |ps|
    ensures forall i :: 0 <= i < |ps| ==> vs[i] == Visit(k, ps[i])
  {
    seq(|ps|, i requires 0 <= i < |ps| => Visit(k, ps[i]))
  }

  /** All visits in execution order: headings, paragraphs, buttons, nav links, labels, leads. */
  function Visits(q: Queries): seq<Visit> {
    Tagged(Heading, q.headings) + Tagged(Paragraph, q.paragraphs) + Tagged(Button, q.buttons)
    + Tagged(NavLink, q.navLinks) + Tagged(Label, q.labels) + Tagged(Lead, q.leads)
  }

  predicate InDocument(doc: seq<Node>, vs: seq<Visit>) {
    forall i :: 0 <= i < |vs| ==> vs[i].pos < |doc|
  }

  /** The query results name nodes of the document. */
  predicate ValidQueries(doc: seq<Node>, q: Queries) {
    InDocument(doc, Visits(q))
  }

  /** The visits whose node is collected, in visiting order. */
  function Picked(doc: seq<Node>, vs: seq<Visit>): (ps: seq<Visit>)
    requires InDocument(doc, vs)
    ensures InDocument(doc, ps)
    ensures |ps| <= |vs|
  {
    if |vs| == 0 then []
    else
      var v := vs[|vs| - 1];
      Picked(doc, vs[..|vs| - 1]) + (if Collects(v.kind, doc[v.pos]) then [v] else [])
  }

  /** The characters a key is made of: lower-case letters, digits and `_`. None of them ends or
      escapes the quoted string of the selector `[data-translate-key="..."]`. */
  predicate IsKeyChar(c: char) {
    'a' <= c <= 'z' || '0' <= c <= '9' || c == '_'
  }

  /** The key `prefix_n` built from a group and a counter value: the group prefix, then the first
      `_`, then the counter's decimal digits; every character is a key character. */
  function Key(k: Kind, n: nat): (key: string)
    ensures var p := Prefix(k);
            && |key| > |p| + 1 && key[..|p|] == p && key[|p|] == '_' && '_' !in key[..|p|]
            && AllDigits(key[|p| + 1..])
    ensures forall i :: 0 <= i < |key| ==> IsKeyChar(key[i])
  {
    var p := Prefix(k);
    var key := p + "_" + DecimalString(n);
    assert key[..|p|] == p;
    assert key[|p| + 1..] == DecimalString(n);
    forall i | 0 <= i < |key| ensures IsKeyChar(key[i]) {
      if i < |p| {
        assert key[i] == p[i];
      } else if i > |p| {
        assert key[i] == DecimalString(n)[i - |p| - 1];
      }
    }
    key
  }

  /** Reads a key back into its group and number. */
  function ParseKey(key: string): Option<(Kind, nat)> {
    match IndexOf(key, '_')
    case None => None
    case Some(i) =>
      var digits := key[i + 1..];
      var kind := KindOfPrefix(key[..i]);
      if |digits| > 0 && AllDigits(digits) && kind.Some? then Some((kind.value, DecimalValue(digits)))
      else None
  }

  /** Every key names its group and its counter value. */
  lemma KeyRoundTrip(k: Kind, n: nat)
    ensures ParseKey(Key(k, n)) == Some((k, n))
  {
    var p := Prefix(k);
    var key := Key(k, n);
    assert key[|p|] == '_';
    forall j | 0 <= j < |p| ensures key[j] != '_' {
      assert key[j] == key[..|p|][j];
    }
    IndexOfFirst(key, '_', |p|);
    assert key[|p| + 1..] == DecimalString(n);
    DecimalRoundTrip(n);
    assert KindOfPrefix(p) == Some(k);
  }

  /** An entry of the `elements` object sent to the backend. */
  datatype Entry = Entry(key: string, text: string)

  /** `xs` with each element replaced by `f` of it and its position. */
  function MapWithIndex<A, B>(xs: seq<A>, f: (A, nat) -> B): (ys: seq<B>)
    ensures |ys| == |xs|
  {
    if |xs| == 0 then [] else MapWithIndex(xs[..|xs| - 1], f) + [f(xs[|xs| - 1], |xs| - 1)]
  }

  lemma {:induction false} MapWithIndexAt<A, B>(xs: seq<A>, f: (A, nat) -> B, j: nat)
    requires j < |xs|
    ensures MapWithIndex(xs, f)[j] == f(xs[j], j)
  {
    var n := |xs| - 1;
    if j < n {
      MapWithIndexAt(xs[..n], f, j);
    }
  }

  lemma MapWithIndexStep<A, B>(xs: seq<A>, x: A, f: (A, nat) -> B)
    ensures MapWithIndex(xs + [x], f) == MapWithIndex(xs, f) + [f(x, |xs|)]
  {
    assert (xs + [x])[..|xs|] == xs;
  }

  /** The text of node `p`; no node lies outside the document, so the fallback is never read. */
  function TextAt(doc: seq<Node>, p: nat): string {
    if p < |doc| then doc[p].text else ""
  }

  /** The entry a visit numbered `n` produces: key from the counter, text trimmed. */
  function MakeEntry(doc: seq<Node>): (Visit, nat) -> Entry {
    (v: Visit, n: nat) => Entry(Key(v.kind, n), Trim(TextAt(doc, v.pos)))
  }

  /** The entries numbered from 0 in the order of `ps`. */
  function EntriesFor(doc: seq<Node>, ps: seq<Visit>): (es: seq<Entry>)
    requires InDocument(doc, ps)
    ensures |es| == |ps|
  {
    MapWithIndex(ps, MakeEntry(doc))
  }

  /** Entry `j` carries the key numbered `j` for the kind of visit `j`, and the trimmed text of its node. */
  lemma EntriesForAt(doc: seq<Node>, ps: seq<Visit>, j: nat)
    requires InDocument(doc, ps) && j < |ps|
    ensures EntriesFor(doc, ps)[j] == Entry(Key(ps[j].kind, j), Trim(doc[ps[j].pos].text))
  {
    MapWithIndexAt(ps, MakeEntry(doc), j);
  }

  /** What `collectTranslatableElements` should send: the collected visits, numbered by one
      counter shared by all groups. */
  function ExpectedEntries(doc: seq<Node>, q: Queries): seq<Entry>
    requires ValidQueries(doc, q)
  {
    EntriesFor(doc, Picked(doc, Visits(q)))
  }

  /** No later collected visit writes a key onto the same node. */
  predicate LastWrite(ps: seq<Visit>, j: nat)
    requires j < |ps|
  {
    forall j2 :: j < j2 < |ps| ==> ps[j2].pos != ps[j].pos
  }

  /** No collected visit is at node `x`. */
  predicate NeverPicked(ps: seq<Visit>, x: nat) {
    forall j :: 0 <= j < |ps| ==> ps[j].pos != x
  }

  /** `a` and `b` are the same element apart from `data-translate-key`. */
  predicate SameButKey(a: Node, b: Node) {
    a.text == b.text && a.noTranslateClass == b.noTranslateClass
    && a.insideNoTranslate == b.insideNoTranslate && a.id == b.id
  }

  lemma CollectsIgnoresKey(k: Kind, a: Node, b: Node)
    requires SameButKey(a, b)
    ensures Collects(k, a) == Collects(k, b)
  {
  }

  lemma PickedStep(doc: seq<Node>, vs: seq<Visit>, t: nat)
    requires InDocument(doc, vs) && t < |vs|
    ensures InDocument(doc, vs[..t]) && InDocument(doc, vs[..t + 1])
    ensures Picked(doc, vs[..t + 1])
            == Picked(doc, vs[..t]) + (if Collects(vs[t].kind, doc[vs[t].pos]) then [vs[t]] else [])
  {
    assert vs[..t + 1][..t] == vs[..t];
  }

  lemma {:induction false} EntriesForStep(doc: seq<Node>, ps: seq<Visit>, v: Visit)
    requires InDocument(doc, ps) && v.pos < |doc|
    ensures InDocument(doc, ps + [v])
    ensures EntriesFor(doc, ps + [v]) == EntriesFor(doc, ps) + [Entry(Key(v.kind, |ps|), Trim(doc[v.pos].text))]
  {
    assert InDocument(doc, ps + [v]) by {
      forall j | 0 <= j < |ps| + 1 ensures (ps + [v])[j].pos < |doc| {
        if j < |ps| {
          assert (ps + [v])[j] == ps[j];
        }
      }
    }
    MapWithIndexStep(ps, v, MakeEntry(doc));
  }

  /** The document `doc'` carries the keys of `elements`, written in the order of the visits
      `ps` onto `doc`: every node keeps all but its key, a node never collected keeps its key,
      and a node ends with the key of the last visit that collected it. */
  predicate KeysWritten(doc: seq<Node>, doc': seq<Node>, ps: seq<Visit>, elements: seq<Entry>) {
    && |doc'| == |doc| && InDocument(doc, ps) && |elements| == |ps|
    && (forall x :: 0 <= x < |doc| ==> SameButKey(doc'[x], doc[x]))
    && (forall x :: 0 <= x < |doc| && NeverPicked(ps, x) ==> doc'[x].translateKey == doc[x].translateKey)
    && (forall j :: 0 <= j < |ps| && LastWrite(ps, j) ==> doc'[ps[j].pos].translateKey == Some(elements[j].key))
  }

  lemma KeysWrittenStep(doc: seq<Node>, doc': seq<Node>, ps: seq<Visit>, elements: seq<Entry>, v: Visit, e: Entry)
    requires KeysWritten(doc, doc', ps, elements) && v.pos < |doc|
    ensures KeysWritten(doc, doc'[v.pos := doc'[v.pos].(translateKey := Some(e.key))], ps + [v], elements + [e])
  {
    var doc'' := doc'[v.pos := doc'[v.pos].(translateKey := Some(e.key))];
    var ps' := ps + [v];
    var elements' := elements + [e];
    forall x | 0 <= x < |doc| && NeverPicked(ps', x)
      ensures doc''[x].translateKey == doc[x].translateKey
    {
      assert NeverPicked(ps, x) by {
        forall j | 0 <= j < |ps| ensures ps[j].pos != x {
          assert ps'[j] == ps[j];
        }
      }
      assert ps'[|ps|] == v;
    }
    forall j | 0 <= j < |ps'| && LastWrite(ps', j)
      ensures doc''[ps'[j].pos].translateKey == Some(elements'[j].key)
    {
      if j == |ps| {
        assert ps'[j] == v && elements'[j] == e;
      } else {
        assert ps'[|ps|] == v && ps'[j] == ps[j] && elements'[j] == elements[j];
        assert LastWrite(ps, j) by {
          forall j2 | j < j2 < |ps| ensures ps[j2].pos != ps[j].pos {
            assert ps'[j2] == ps[j2];
          }
        }
      }
    }
  }

  /** The state of the collection loops after the first `t` visits: `ps` are the visits
      collected so far, `elements` their entries, and `doc'` carries their keys. */
  predicate CollectInvariant(doc: seq<Node>, vs: seq<Visit>, t: nat, ps: seq<Visit>, elements: seq<Entry>, doc': seq<Node>)
    requires InDocument(doc, vs) && t <= |vs|
  {
    && InDocument(doc, vs[..t])
    && KeysWritten(doc, doc', ps, elements)
    && ps == Picked(doc, vs[..t])
    && elements == EntriesFor(doc, ps)
  }

  /** Before the first iteration nothing is collected and the page is as given. */
  lemma CollectStart(doc: seq<Node>, vs: seq<Visit>)
    requires InDocument(doc, vs)
    ensures CollectInvariant(doc, vs, 0, [], [], doc)
  {
    assert vs[..0] == [];
  }

  /** The body of the `forEach` callbacks for the visit `v`: when the node passes its group's
      test, number it with `counter`, record its trimmed text and write the key onto it;
      otherwise leave everything as it was. */
  method CollectOne(v: Visit, elements: seq<Entry>, doc': seq<Node>, counter: nat)
    returns (elements': seq<Entry>, doc'': seq<Node>, counter': nat)
    requires v.pos < |doc'| && counter == |elements|
    ensures counter' == |elements'|
    ensures Collects(v.kind, doc'[v.pos]) ==>
              var e := Entry(Key(v.kind, |elements|), Trim(doc'[v.pos].text));
              elements' == elements + [e] && doc'' == doc'[v.pos := doc'[v.pos].(translateKey := Some(e.key))]
    ensures !Collects(v.kind, doc'[v.pos]) ==> elements' == elements && doc'' == doc'
  {
    var el := doc'[v.pos];
    if Collects(v.kind, el) {
      var key := Key(v.kind, counter);
      counter' := counter + 1;
      elements' := elements + [Entry(key, Trim(el.text))];
      doc'' := doc'[v.pos := el.(translateKey := Some(key))];
    } else {
      elements', doc'', counter' := elements, doc', counter;
    }
  }

  /** The six `forEach` loops run one after the other over the visits `vs`, sharing `counter`. */
  method CollectVisits(doc: seq<Node>, vs: seq<Visit>) returns (elements: seq<Entry>, doc': seq<Node>)
    requires InDocument(doc, vs)
    ensures elements == EntriesFor(doc, Picked(doc, vs))
    ensures KeysWritten(doc, doc', Picked(doc, vs), elements)
  {
    elements := [];
    doc' := doc;
    var counter := 0;
    ghost var ps: seq<Visit> := [];
    CollectStart(doc, vs);
    for t := 0 to |vs|
      invariant counter == |elements|
      invariant CollectInvariant(doc, vs, t, ps, elements, doc')
    {
      var v := vs[t];
      PickedStep(doc, vs, t);
      CollectsIgnoresKey(v.kind, doc'[v.pos], doc[v.pos]);
      ghost var collected := Collects(v.kind, doc'[v.pos]);
      if collected {
        EntriesForStep(doc, ps, v);
        KeysWrittenStep(doc, doc', ps, elements, v, Entry(Key(v.kind, |elements|), Trim(doc'[v.pos].text)));
      }
      elements, doc', counter := CollectOne(v, elements, doc', counter);
      if collected {
        ps := ps + [v];
      }
    }
    assert vs[..|vs|] == vs;
  }

  /** `collectTranslatableElements`: the six loops sharing `counter`. It returns the entries
      numbered in collection order, and the document with `data-translate-key` written as
      `KeysWritten` describes: each collected node carries the key of its last entry (a node
      reached by two queries keeps the later key), other nodes keep their key, and nothing but
      keys changes. */
  method CollectTranslatableElements(doc: seq<Node>, q: Queries) returns (elements: seq<Entry>, doc': seq<Node>)
    requires ValidQueries(doc, q)
    ensures elements == ExpectedEntries(doc, q)
    ensures KeysWritten(doc, doc', Picked(doc, Visits(q)), elements)
  {
    elements, doc' := CollectVisits(doc, Visits(q));
  }

  /** Every collected node is a visited one that passes its group's test, and conversely. */
  lemma {:induction false} PickedExactly(doc: seq<Node>, vs: seq<Visit>, v: Visit)
    requires InDocument(doc, vs)
    ensures v in Picked(doc, vs) <==> v in vs && Collects(v.kind, doc[v.pos])
  {
    if |vs| > 0 {
      var init, last := vs[..|vs| - 1], vs[|vs| - 1];
      PickedExactly(doc, init, v);
      assert vs == init + [last];
      assert v in vs <==> v in init || v == last;
      var tail := if Collects(last.kind, doc[last.pos]) then [last] else [];
      assert Picked(doc, vs) == Picked(doc, init) + tail;
      assert v in Picked(doc, vs) <==> v in Picked(doc, init) || v in tail;
    }
  }

  /** The keys sent carry the counter values 0, 1, 2, ... in collection order, each with the
      prefix of its group; hence no two entries share a key. */
  lemma ExpectedKeysNumbered(doc: seq<Node>, q: Queries)
    requires ValidQueries(doc, q)
    ensures var es := ExpectedEntries(doc, q); var ps := Picked(doc, Visits(q));
            forall j :: 0 <= j < |es| ==> ParseKey(es[j].key) == Some((ps[j].kind, j))
    ensures var es := ExpectedEntries(doc, q);
            forall j1, j2 :: 0 <= j1 < j2 < |es| ==> es[j1].key != es[j2].key
  {
    var es := ExpectedEntries(doc, q);
    var ps := Picked(doc, Visits(q));
    forall j | 0 <= j < |es| ensures ParseKey(es[j].key) == Some((ps[j].kind, j)) {
      EntriesForAt(doc, ps, j);
      KeyRoundTrip(ps[j].kind, j);
    }
  }

  predicate RankSorted(vs: seq<Visit>) {
    forall i, j :: 0 <= i <= j < |vs| ==> Rank(vs[i].kind) <= Rank(vs[j].kind)
  }

  lemma {:induction false} PickedKeepsOrder(doc: seq<Node>, vs: seq<Visit>)
    requires InDocument(doc, vs) && RankSorted(vs)
    ensures RankSorted(Picked(doc, vs))
  {
    if |vs| > 0 {
      var init := vs[..|vs| - 1];
      PickedKeepsOrder(doc, init);
      forall v | v in Picked(doc, init) ensures Rank(v.kind) <= Rank(vs[|vs| - 1].kind) {
        PickedExactly(doc, init, v);
      }
    }
  }

  /** Appending one group's visits after visits of no higher rank keeps the order. */
  lemma AppendGroupSorted(vs: seq<Visit>, k: Kind, ps: seq<nat>)
    requires RankSorted(vs)
    requires forall i :: 0 <= i < |vs| ==> Rank(vs[i].kind) <= Rank(k)
    ensures RankSorted(vs + Tagged(k, ps))
    ensures forall i :: 0 <= i < |vs + Tagged(k, ps)| ==> Rank((vs + Tagged(k, ps))[i].kind) <= Rank(k)
  {
  }

  /** Groups are collected in the order headings, paragraphs, buttons, nav links, labels, leads:
      along the entries the group rank never decreases. */
  lemma CollectionOrder(doc: seq<Node>, q: Queries)
    requires ValidQueries(doc, q)
    ensures RankSorted(Picked(doc, Visits(q)))
  {
    var v0: seq<Visit> := [];
    AppendGroupSorted(v0, Heading, q.headings);
    var v1 := v0 + Tagged(Heading, q.headings);
    AppendGroupSorted(v1, Paragraph, q.paragraphs);
    var v2 := v1 + Tagged(Paragraph, q.paragraphs);
    AppendGroupSorted(v2, Button, q.buttons);
    var v3 := v2 + Tagged(Button, q.buttons);
    AppendGroupSorted(v3, NavLink, q.navLinks);
    var v4 := v3 + Tagged(NavLink, q.navLinks);
    AppendGroupSorted(v4, Label, q.labels);
    var v5 := v4 + Tagged(Label, q.labels);
    AppendGroupSorted(v5, Lead, q.leads);
    assert v5 + Tagged(Lead, q.leads) == Visits(q);
    PickedKeepsOrder(doc, Visits(q));
  }

  /** `document.querySelector('[data-translate-key="key"]')`: the first node in document order
      that carries `key`, if any. */
  function QueryByKey(doc: seq<Node>, key: string): (found: Option<nat>)
    ensures found.Some? ==> found.value < |doc| && doc[found.value].translateKey == Some(key)
    ensures found.Some? ==> forall i :: 0 <= i < found.value ==> doc[i].translateKey != Some(key)
    ensures found.None? ==> forall i :: 0 <= i < |doc| ==> doc[i].translateKey != Some(key)
  {
    if |doc| == 0 then None
    else if doc[0].translateKey == Some(key) then Some(0)
    else
      match QueryByKey(doc[1..], key)
      case None => None
      case Some(i) => Some(i + 1)
  }

  predicate SameKeys(a: seq<Node>, b: seq<Node>) {
    |a| == |b| && forall i :: 0 <= i < |a| ==> a[i].translateKey == b[i].translateKey
  }

  /** The lookup only reads keys. */
  lemma QueryByKeyReadsKeys(a: seq<Node>, b: seq<Node>, key: string)
    requires SameKeys(a, b)
    ensures QueryByKey(a, key) == QueryByKey(b, key)
  {
  }

  /** The translation applied last for `key` when the reply's entries are applied in order. */
  function Lookup(translations: seq<(string, string)>, key: string): Option<string> {
    if |translations| == 0 then None
    else if translations[|translations| - 1].0 == key then Some(translations[|translations| - 1].1)
    else Lookup(translations[..|translations| - 1], key)
  }

  /** Node `i` is the one `querySelector` finds for its own key. */
  predicate FirstHolder(doc: seq<Node>, i: nat)
    requires i < |doc|
  {
    doc[i].translateKey.Some? && QueryByKey(doc, doc[i].translateKey.value) == Some(i)
  }

  /** Node `i` after the translations have been applied. */
  predicate Translated(doc: seq<Node>, translations: seq<(string, string)>, out: seq<Node>, i: nat)
    requires i < |doc| && i < |out|
  {
    && out[i].(text := doc[i].text) == doc[i]
    && (if FirstHolder(doc, i) && Lookup(translations, doc[i].translateKey.value).Some?
        then out[i].text == Lookup(translations, doc[i].translateKey.value).value
        else out[i].text == doc[i].text)
  }

  lemma LookupStep(translations: seq<(string, string)>, key: string, text: string, k: string)
    ensures Lookup(translations + [(key, text)], k) == if k == key then Some(text) else Lookup(translations, k)
  {
    assert (translations + [(key, text)])[..|translations|] == translations;
  }

  /** Applying one more entry keeps every node in the translated state. */
  lemma ApplyStep(doc: seq<Node>, translations: seq<(string, string)>, out: seq<Node>, key: string, text: string)
    requires |out| == |doc| && SameKeys(out, doc)
    requires forall i :: 0 <= i < |doc| ==> Translated(doc, translations, out, i)
    ensures var out' := match QueryByKey(doc, key)
                        case Some(e) => out[e := out[e].(text := text)]
                        case None => out;
            forall i :: 0 <= i < |doc| ==> Translated(doc, translations + [(key, text)], out', i)
  {
    var found := QueryByKey(doc, key);
    var out' := match found
                case Some(e) => out[e := out[e].(text := text)]
                case None => out;
    forall i | 0 <= i < |doc| ensures Translated(doc, translations + [(key, text)], out', i) {
      assert Translated(doc, translations, out, i);
      if doc[i].translateKey.Some? {
        LookupStep(translations, key, text, doc[i].translateKey.value);
      }
      if found.Some? && found.value == i {
        assert FirstHolder(doc, i);
      }
    }
  }

  /** `applyTranslations`: for each returned key, the first node carrying that key gets the
      translated text. Keys no node carries are ignored; nodes without a returned key, and
      later nodes that share a key with an earlier one, keep their text; nothing but text changes. */
  method ApplyTranslations(doc: seq<Node>, translations: seq<(string, string)>) returns (out: seq<Node>)
    ensures |out| == |doc|
    ensures forall i :: 0 <= i < |doc| ==> Translated(doc, translations, out, i)
  {
    out := doc;
    for t := 0 to |translations|
      invariant |out| == |doc|
      invariant SameKeys(out, doc)
      invariant forall i :: 0 <= i < |doc| ==> Translated(doc, translations[..t], out, i)
    {
      var (key, translatedText) := translations[t];
      assert translations[..t + 1][..t] == translations[..t];
      var element := QueryByKey(out, key);
      QueryByKeyReadsKeys(out, doc, key);
      ApplyStep(doc, translations[..t], out, key, translatedText);
      assert translations[..t + 1] == translations[..t] + [(key, translatedText)];
      if element.Some? {
        out := out[element.value := out[element.value].(text := translatedText)];
      }
    }
    assert translations[..|translations|] == translations;
  }

  /** No node carries a `data-translate-key` yet, as on a page never translated. */
  predicate NoKeys(doc: seq<Node>) {
    forall i :: 0 <= i < |doc| ==> doc[i].translateKey.None?
  }

  predicate DistinctKeys(elements: seq<Entry>) {
    forall j1, j2 :: 0 <= j1 < j2 < |elements| ==> elements[j1].key != elements[j2].key
  }

  /** The last collected visit at a collected node. */
  lemma LastVisitOf(ps: seq<Visit>, x: nat) returns (j: nat)
    requires !NeverPicked(ps, x)
    ensures j < |ps| && ps[j].pos == x && LastWrite(ps, j)
  {
    j := |ps| - 1;
    while ps[j].pos != x
      invariant j < |ps|
      invariant forall j2 :: j < j2 < |ps| ==> ps[j2].pos != x
      invariant exists k :: 0 <= k <= j && ps[k].pos == x
      decreases j
    {
      j := j - 1;
    }
  }

  /** On a page without keys, the node a collected entry was last written to is the first (and
      only) holder of that entry's key. */
  lemma CollectedNodeHoldsKey(doc: seq<Node>, doc': seq<Node>, ps: seq<Visit>, elements: seq<Entry>, j: nat)
    requires NoKeys(doc) && KeysWritten(doc, doc', ps, elements) && DistinctKeys(elements)
    requires j < |ps| && LastWrite(ps, j)
    ensures ps[j].pos < |doc'| && FirstHolder(doc', ps[j].pos)
    ensures doc'[ps[j].pos].translateKey == Some(elements[j].key)
  {
    var p := ps[j].pos;
    var key := elements[j].key;
    assert doc'[p].translateKey == Some(key);
    forall y | 0 <= y < |doc'| && doc'[y].translateKey == Some(key) ensures y == p {
      if !NeverPicked(ps, y) {
        var j' := LastVisitOf(ps, y);
        assert elements[j'].key == key;
      }
    }
  }

  /** Collecting and then applying: on a page without keys, every node holding the last write of
      a collected entry shows the translation returned for that entry's key, or keeps its text
      when none was returned. */
  lemma TranslationsLandOnCollectedNodes(doc: seq<Node>, doc': seq<Node>, ps: seq<Visit>, elements: seq<Entry>,
                                         translations: seq<(string, string)>, out: seq<Node>, j: nat)
    requires NoKeys(doc) && KeysWritten(doc, doc', ps, elements) && DistinctKeys(elements)
    requires |out| == |doc'| && forall i :: 0 <= i < |doc'| ==> Translated(doc', translations, out, i)
    requires j < |ps| && LastWrite(ps, j)
    ensures ps[j].pos < |out|
    ensures out[ps[j].pos].text == match Lookup(translations, elements[j].key)
                                   case Some(t) => t
                                   case None => doc[ps[j].pos].text
  {
    CollectedNodeHoldsKey(doc, doc', ps, elements, j);
    assert Translated(doc', translations, out, ps[j].pos);
    assert SameButKey(doc'[ps[j].pos], doc[ps[j].pos]);
  }

  /** A reply whose keys are distinct gives each of its keys its own text. */
  lemma {:induction false} LookupDistinct(translations: seq<(string, string)>, j: nat)
    requires j < |translations|
    requires forall j1, j2 :: 0 <= j1 < j2 < |translations| ==> translations[j1].0 != translations[j2].0
    ensures Lookup(translations, translations[j].0) == Some(translations[j].1)
  {
    var n := |translations| - 1;
    if j < n {
      LookupDistinct(translations[..n], j);
    }
  }

  /** Answers given under the distinct keys of `es`, in order, are found under those keys. */
  lemma {:induction false} AnswersMatchDistinctKeys(es: seq<Entry>, translations: seq<(string, string)>, j: nat)
    requires |translations| == |es| && j < |es|
    requires forall k :: 0 <= k < |translations| ==> translations[k].0 == es[k].key
    requires forall j1, j2 :: 0 <= j1 < j2 < |es| ==> es[j1].key != es[j2].key
    ensures Lookup(translations, es[j].key) == Some(translations[j].1)
  {
    LookupDistinct(translations, j);
  }

  /** A reply that answers every entry sent, in order and under the same keys, gives each entry
      exactly its own translation: the keys sent are distinct, so no answer shadows another. */
  lemma {:induction false} FullReplyTranslatesEveryEntry(doc: seq<Node>, q: Queries, translations: seq<(string, string)>, j: nat)
    requires ValidQueries(doc, q)
    requires |translations| == |ExpectedEntries(doc, q)|
    requires forall k :: 0 <= k < |translations| ==> translations[k].0 == ExpectedEntries(doc, q)[k].key
    requires j < |translations|
    ensures Lookup(translations, ExpectedEntries(doc, q)[j].key) == Some(translations[j].1)
  {
    ExpectedKeysNumbered(doc, q);
    AnswersMatchDistinctKeys(ExpectedEntries(doc, q), translations, j);
  }

  /** The language the toggle offers from `lang`: English from Swahili, Swahili from anything else. */
  function OtherLanguage(lang: string): (other: string)
    ensures other != lang && (other == "en" || other == "sw")
    ensures lang == "sw" ==> other == "en"
    ensures lang != "sw" ==> other == "sw"
  {
    if lang == "sw" then "en" else "sw"
  }

  /** The `#language-toggle` button: its caption, its `data-lang` attribute and its classes. */
  datatype Toggle = Toggle(caption: string, dataLang: string, classes: set<string>)

  const StyleClasses: set<string> := {"btn-success", "btn-warning", "btn-outline-secondary"}

  /** `updateLanguageToggle(lang)`: a page without the toggle is left alone; otherwise the
      button offers the other language, names it in its caption, is green after switching to Swahili and amber otherwise,
      and keeps every class that is not one of the three style classes. */
  function UpdateLanguageToggle(toggle: Option<Toggle>, lang: string): (r: Option<Toggle>)
    ensures r.Some? <==> toggle.Some?
    ensures r.Some? ==> r.value.dataLang == OtherLanguage(lang)
    ensures r.Some? ==> r.value.caption == (if r.value.dataLang == "en" then "\U{1F30D} English"
                                           else "\U{1F30D} Translate to Swahili")
    ensures r.Some? ==> ("btn-success" in r.value.classes <==> lang == "sw")
    ensures r.Some? ==> ("btn-warning" in r.value.classes <==> lang != "sw")
    ensures r.Some? ==> "btn-outline-secondary" !in r.value.classes
    ensures r.Some? ==> forall c :: c !in StyleClasses ==> (c in r.value.classes <==> c in toggle.value.classes)
  {
    match toggle
    case None => None
    case Some(t) =>
      if lang == "sw" then
        Some(Toggle("\U{1F30D} English", "en", t.classes - {"btn-outline-secondary", "btn-warning"} + {"btn-success"}))
      else
        Some(Toggle("\U{1F30D} Translate to Swahili", "sw", t.classes - {"btn-success", "btn-outline-secondary"} + {"btn-warning"}))
  }

  /** The translator's state together with the page it works on. */
  datatype Session = Session(currentLang: string, doc: seq<Node>, toggle: Option<Toggle>)

  /** A fresh translator on a page: the constructor sets `currentLang` to English. */
  function NewSession(doc: seq<Node>, toggle: Option<Toggle>): (s: Session)
    ensures s.currentLang == "en" && s.doc == doc && s.toggle == toggle
  {
    Session("en", doc, toggle)
  }

  /** What the backend round trip yields: a failure (a network error, a non-ok status, a body
      that is not JSON or has no `translations`) or the translated entries in object order. */
  datatype Reply = Failed | Replied(translations: seq<(string, string)>)

  /** The text of the paragraph in the overlay that `showLoadingIndicator` adds. */
  const LoaderText := "Translating page..."

  /** That paragraph as the translator sees it: no class of interest, no id, no key. The overlay's
      other elements (its `div`s and the spinner's `span`) match none of the six queries. */
  const LoaderParagraph := Node(LoaderText, false, false, "", None)

  /** The page while the overlay is shown: it is appended to the end of the body, so its
      paragraph is the last node in document order. */
  function ShownPage(doc: seq<Node>): seq<Node> {
    doc + [LoaderParagraph]
  }

  /** The query results while the overlay is shown: the overlay's paragraph is the last `p`. */
  function ShownQueries(doc: seq<Node>, q: Queries): Queries {
    q.(paragraphs := q.paragraphs + [|doc|])
  }

  lemma InDocumentAppend(doc: seq<Node>, a: seq<Visit>, b: seq<Visit>)
    ensures InDocument(doc, a + b) <==> InDocument(doc, a) && InDocument(doc, b)
  {
    if InDocument(doc, a) && InDocument(doc, b) {
      forall i | 0 <= i < |a + b| ensures (a + b)[i].pos < |doc| {
        if i >= |a| {
          assert (a + b)[i] == b[i - |a|];
        }
      }
    }
    if InDocument(doc, a + b) {
      forall i | 0 <= i < |a| ensures a[i].pos < |doc| {
        assert (a + b)[i] == a[i];
      }
      forall i | 0 <= i < |b| ensures b[i].pos < |doc| {
        assert (a + b)[|a| + i] == b[i];
      }
    }
  }

  /** Showing the overlay keeps the query results inside the page, and the overlay's paragraph
      is visited by the paragraph loop. */
  lemma ShownQueriesValid(doc: seq<Node>, q: Queries)
    requires ValidQueries(doc, q)
    ensures ValidQueries(ShownPage(doc), ShownQueries(doc, q))
    ensures Visit(Paragraph, |doc|) in Visits(ShownQueries(doc, q))
  {
    var shown, q' := ShownPage(doc), ShownQueries(doc, q);
    var t1, t2, t3 := Tagged(Heading, q.headings), Tagged(Paragraph, q.paragraphs), Tagged(Button, q.buttons);
    var t4, t5, t6 := Tagged(NavLink, q.navLinks), Tagged(Label, q.labels), Tagged(Lead, q.leads);
    var t2' := Tagged(Paragraph, q'.paragraphs);
    InDocumentAppend(doc, t1 + t2 + t3 + t4 + t5, t6);
    InDocumentAppend(doc, t1 + t2 + t3 + t4, t5);
    InDocumentAppend(doc, t1 + t2 + t3, t4);
    InDocumentAppend(doc, t1 + t2, t3);
    InDocumentAppend(doc, t1, t2);
    assert InDocument(shown, t2') by {
      forall i | 0 <= i < |t2'| ensures t2'[i].pos < |shown| {
        if i < |q.paragraphs| {
          assert t2'[i] == t2[i];
        }
      }
    }
    InDocumentAppend(shown, t1, t2');
    InDocumentAppend(shown, t1 + t2', t3);
    InDocumentAppend(shown, t1 + t2' + t3, t4);
    InDocumentAppend(shown, t1 + t2' + t3 + t4, t5);
    InDocumentAppend(shown, t1 + t2' + t3 + t4 + t5, t6);
    assert t2'[|q.paragraphs|] == Visit(Paragraph, |doc|);
    assert Visits(q') == t1 + t2' + t3 + t4 + t5 + t6;
    assert (t1 + t2' + t3 + t4 + t5 + t6)[|t1| + |q.paragraphs|] == Visit(Paragraph, |doc|);
  }

  /** The visits collected while the overlay is shown. */
  function RequestPicks(doc: seq<Node>, q: Queries): (ps: seq<Visit>)
    requires ValidQueries(doc, q)
    ensures InDocument(ShownPage(doc), ps)
  {
    ShownQueriesValid(doc, q);
    Picked(ShownPage(doc), Visits(ShownQueries(doc, q)))
  }

  /** The entries `translatePage` sends: those collected while the overlay is shown. */
  function Request(doc: seq<Node>, q: Queries): (es: seq<Entry>)
    requires ValidQueries(doc, q)
    ensures |es| == |RequestPicks(doc, q)|
  {
    ShownQueriesValid(doc, q);
    ExpectedEntries(ShownPage(doc), ShownQueries(doc, q))
  }

  /** The overlay's paragraph is collected and sent: some entry `j` of the request comes from it,
      carries the paragraph key numbered `j`, and the overlay's text. Every entry collected after
      it is numbered one higher than on the page without the overlay. */
  lemma LoaderParagraphSent(doc: seq<Node>, q: Queries) returns (j: nat)
    requires ValidQueries(doc, q)
    ensures j < |RequestPicks(doc, q)| && RequestPicks(doc, q)[j] == Visit(Paragraph, |doc|)
    ensures Request(doc, q)[j] == Entry(Key(Paragraph, j), LoaderText)
  {
    var shown, q' := ShownPage(doc), ShownQueries(doc, q);
    ShownQueriesValid(doc, q);
    var v := Visit(Paragraph, |doc|);
    var ps := Picked(shown, Visits(q'));
    assert shown[|doc|] == LoaderParagraph;
    TrimUnpadded(LoaderText);
    assert Collects(Paragraph, LoaderParagraph);
    PickedExactly(shown, Visits(q'), v);
    j :| 0 <= j < |ps| && ps[j] == v;
    EntriesForAt(shown, ps, j);
  }

  /** Dropping nodes from the end keeps the others translated. */
  lemma TranslatedPrefix(doc: seq<Node>, translations: seq<(string, string)>, out: seq<Node>, n: nat)
    requires |out| == |doc| && n <= |out|
    requires forall i :: 0 <= i < |doc| ==> Translated(doc, translations, out, i)
    ensures forall i :: 0 <= i < n ==> Translated(doc, translations, out[..n], i)
  {
    forall i | 0 <= i < n ensures Translated(doc, translations, out[..n], i) {
      assert out[..n][i] == out[i];
      assert Translated(doc, translations, out, i);
    }
  }

  /** The nodes of `shown` before the overlay are those of `doc`: a collected entry whose last
      write is one of them lands there as on any page without keys. */
  lemma LandsBeforeOverlay(doc: seq<Node>, shown: seq<Node>, keyed: seq<Node>, ps: seq<Visit>, es: seq<Entry>,
                           translations: seq<(string, string)>, translated: seq<Node>)
    requires |doc| <= |shown| && forall i :: 0 <= i < |doc| ==> shown[i] == doc[i]
    requires NoKeys(shown) && KeysWritten(shown, keyed, ps, es) && DistinctKeys(es)
    requires |translated| == |keyed|
    requires forall i :: 0 <= i < |keyed| ==> Translated(keyed, translations, translated, i)
    ensures forall j :: 0 <= j < |ps| && ps[j].pos < |doc| && LastWrite(ps, j) ==>
              translated[ps[j].pos].text == match Lookup(translations, es[j].key)
                                            case Some(t) => t
                                            case None => doc[ps[j].pos].text
  {
    forall j | 0 <= j < |ps| && ps[j].pos < |doc| && LastWrite(ps, j)
      ensures translated[ps[j].pos].text == match Lookup(translations, es[j].key)
                                            case Some(t) => t
                                            case None => doc[ps[j].pos].text
    {
      TranslationsLandOnCollectedNodes(shown, keyed, ps, es, translations, translated, j);
    }
  }

  /** The keys sent with the overlay shown, the overlay's own among them, are pairwise distinct. */
  lemma RequestKeysDistinct(doc: seq<Node>, q: Queries)
    requires ValidQueries(doc, q)
    ensures DistinctKeys(Request(doc, q))
  {
    ShownQueriesValid(doc, q);
    ExpectedKeysNumbered(ShownPage(doc), ShownQueries(doc, q));
  }

  /** `translatePage(target)`, with the backend as `server`. Asking for the current language does
      nothing. Otherwise the overlay is shown, the keys are written onto the page with the
      overlay, giving `keyed`, and the entries collected there, the overlay's paragraph among
      them, are sent. A failure keeps `currentLang` and the toggle. A successful reply translates
      `keyed` as `applyTranslations` does, sets `currentLang` to `target` and updates the toggle.
      Either way the overlay is then removed, and nothing else on the page changes. */
  method TranslatePage(s: Session, q: Queries, target: string, server: (seq<Entry>, string) -> Reply)
    returns (s': Session, keyed: seq<Node>)
    requires ValidQueries(s.doc, q)
    ensures s.currentLang == target ==> s' == s && keyed == s.doc
    ensures |s'.doc| == |s.doc|
    ensures s.currentLang != target ==>
              && |keyed| == |s.doc| + 1
              && KeysWritten(ShownPage(s.doc), keyed, RequestPicks(s.doc, q), Request(s.doc, q))
    ensures s.currentLang != target ==>
              var reply := server(Request(s.doc, q), target);
              && (s'.currentLang == target <==> reply.Replied?)
              && (reply.Failed? ==> s' == s.(doc := keyed[..|s.doc|]))
              && (reply.Failed? ==> forall i :: 0 <= i < |s.doc| ==> s'.doc[i].text == s.doc[i].text)
              && (reply.Replied? ==> s'.toggle == UpdateLanguageToggle(s.toggle, target))
              && (reply.Replied? ==>
                    forall i :: 0 <= i < |s.doc| ==> Translated(keyed, reply.translations, s'.doc, i))
    ensures s.currentLang != target && NoKeys(s.doc) ==>
              var es := Request(s.doc, q);
              var ps := RequestPicks(s.doc, q);
              var reply := server(es, target);
              reply.Replied? ==>
                forall j :: 0 <= j < |ps| && ps[j].pos < |s.doc| && LastWrite(ps, j) ==>
                  s'.doc[ps[j].pos].text == match Lookup(reply.translations, es[j].key)
                                            case Some(t) => t
                                            case None => s.doc[ps[j].pos].text
  {
    if s.currentLang == target {
      return s, s.doc;
    }
    var shown, q' := ShownPage(s.doc), ShownQueries(s.doc, q);
    ShownQueriesValid(s.doc, q);
    var elements, doc' := CollectTranslatableElements(shown, q');
    assert elements == Request(s.doc, q) && Picked(shown, Visits(q')) == RequestPicks(s.doc, q);
    keyed := doc';
    var reply := server(elements, target);
    match reply {
      case Failed =>
        s' := s.(doc := doc'[..|s.doc|]);
      case Replied(translations) =>
        var translated := ApplyTranslations(doc', translations);
        if NoKeys(s.doc) {
          RequestKeysDistinct(s.doc, q);
          assert NoKeys(shown) by {
            forall i | 0 <= i < |shown| ensures shown[i].translateKey.None? {
              if i < |s.doc| {
                assert shown[i] == s.doc[i];
              }
            }
          }
          LandsBeforeOverlay(s.doc, shown, doc', Picked(shown, Visits(q')), elements, translations, translated);
        }
        TranslatedPrefix(doc', translations, translated, |s.doc|);
        s' := Session(target, translated[..|s.doc|], UpdateLanguageToggle(s.toggle, target));
    }
  }

  /** The toggle and the current language agree: the toggle offers the other language. */
  predicate ToggleAgrees(s: Session) {
    (s.currentLang == "en" || s.currentLang == "sw")
    && (s.toggle.Some? ==> s.toggle.value.dataLang == OtherLanguage(s.currentLang))
  }

  /** A click on the toggle: `translatePage` with the toggle's `data-lang`. From an agreeing state
      the language either stays or flips between English and Swahili (flipping exactly on a
      successful reply), and the state agrees again. */
  method ToggleClicked(s: Session, q: Queries, server: (seq<Entry>, string) -> Reply) returns (s': Session)
    requires s.toggle.Some? && ValidQueries(s.doc, q)
    ensures ToggleAgrees(s) ==> ToggleAgrees(s')
    ensures ToggleAgrees(s) ==>
              (s'.currentLang == OtherLanguage(s.currentLang)
               <==> server(Request(s.doc, q), OtherLanguage(s.currentLang)).Replied?)
    ensures ToggleAgrees(s) ==>
              s'.currentLang == s.currentLang || s'.currentLang == OtherLanguage(s.currentLang)
  {
    var keyed;
    s', keyed := TranslatePage(s, q, s.toggle.value.dataLang, server);
  }
}
