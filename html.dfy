/**
 * The parsed page as the scraper queries it: a tree of elements and text
 * nodes, searched in document order. `find`/`select_one` return the first
 * matching descendant, `select`/`find_all` every matching descendant,
 * `get_text()` concatenates the text below a node and `.string` is the
 * single string a node wraps, if any. Only the queries the scraper issues
 * are modelled, as the `Query` datatype.
 */
module Html {
  import opened Maybe
  import opened Strings

  /** `classAttr` is the `class` attribute as written ("" when absent);
      `attrs` holds the other attributes (`href`, `datetime`, ...). */
  datatype Node =
    | Elem(tag: string, classAttr: string, attrs: map<string, string>, children: seq<Node>)
    | Text(text: string)

  /** The nodes below `n`, in document (pre-)order; `n` itself is not included. */
  function Descendants(n: Node): seq<Node>
    decreases n
  {
    match n
    case Text(_) => []
    case Elem(_, _, _, children) => Forest(children)
  }

  /** The nodes of a list of sibling subtrees, each subtree in pre-order. */
  function Forest(ns: seq<Node>): seq<Node>
    decreases ns
  {
    if ns == [] then [] else [ns[0]] + Descendants(ns[0]) + Forest(ns[1..])
  }

  /** `get_text()`: every text node below `n`, concatenated in document order. */
  function GetText(n: Node): string
    decreases n
  {
    match n
    case Text(t) => t
    case Elem(_, _, _, children) => ForestText(children)
  }

  function ForestText(ns: seq<Node>): string
    decreases ns
  {
    if ns == [] then [] else GetText(ns[0]) + ForestText(ns[1..])
  }

  /** `.string`: the text of a text node; for an element with exactly one
      child, that child's `.string`; otherwise nothing. */
  function StringOf(n: Node): Option<string>
    decreases n
  {
    match n
    case Text(t) => Some(t)
    case Elem(_, _, _, children) => if |children| == 1 then StringOf(children[0]) else None
  }

  /** A search for `re.compile(r'.+')`: some character other than a newline. */
  predicate HasNonNewline(s: string) {
    exists i :: 0 <= i < |s| && s[i] != '\n'
  }

  /** The element filters the scraper passes to BeautifulSoup. */
  datatype Query =
      /** a tag name from the list: `find(['h1', 'h2'])`, `select('article')` */
    | TagIn(tags: set<string>)
      /** the CSS attribute selector `[class*="fragment"]` (case-sensitive substring) */
    | ClassHas(fragment: string)
      /** a tag name from the list and `class_=re.compile('w1|w2|...', re.I)` */
    | TagWithClassLike(tags: set<string>, words: seq<string>)
      /** `find('a', href=True)`: an anchor that has an `href` attribute */
    | AnchorWithHref
      /** `find_all(['div'], string=re.compile(r'.+'))` */
    | DivWithText

  /** Whether node `n` is an element selected by `q`. */
  predicate Matches(q: Query, n: Node) {
    && n.Elem?
    && match q
       case TagIn(tags) => n.tag in tags
       case ClassHas(fragment) => Contains(n.classAttr, fragment)
       case TagWithClassLike(tags, words) =>
         n.tag in tags && exists w :: w in words && ContainsIgnoringCase(n.classAttr, w)
       case AnchorWithHref => n.tag == "a" && "href" in n.attrs
       case DivWithText => n.tag == "div" && StringOf(n).Some? && HasNonNewline(StringOf(n).value)
  }

  /** The position of the first node of `ns` selected by `q`, or `|ns|` when there is none. */
  function FirstIndex(ns: seq<Node>, q: Query): (k: nat)
    ensures k <= |ns|
    ensures forall j :: 0 <= j < k ==> !Matches(q, ns[j])
    ensures k < |ns| ==> Matches(q, ns[k])
  {
    if ns == [] then 0
    else if Matches(q, ns[0]) then 0
    else 1 + FirstIndex(ns[1..], q)
  }

  /** `n.find(...)` / `n.select_one(...)`: the first descendant selected by `q`,
      in document order. */
  function FindFirst(n: Node, q: Query): (r: Option<Node>)
    ensures r.Some? ==> r.value in Descendants(n) && Matches(q, r.value)
    ensures r.Some? ==> exists k :: 0 <= k < |Descendants(n)| && Descendants(n)[k] == r.value
                          && forall j :: 0 <= j < k ==> !Matches(q, Descendants(n)[j])
    ensures r.None? ==> forall x :: x in Descendants(n) ==> !Matches(q, x)
  {
    var d := Descendants(n);
    var k := FirstIndex(d, q);
    if k < |d| then Some(d[k]) else None
  }

  /** The nodes of `ns` selected by `q`, in their original order. */
  function Filter(ns: seq<Node>, q: Query): (r: seq<Node>)
    ensures |r| <= |ns|
    ensures forall x :: x in r ==> x in ns && Matches(q, x)
    ensures forall x :: x in ns && Matches(q, x) ==> x in r
  {
    if ns == [] then []
    else (if Matches(q, ns[0]) then [ns[0]] else []) + Filter(ns[1..], q)
  }

  /** The selected nodes are exactly the matching positions of `ns`, taken in
      increasing order: `Filter` neither reorders nor merges equal nodes. */
  lemma {:induction false} FilterIndices(ns: seq<Node>, q: Query) returns (idx: seq<nat>)
    ensures var r := Filter(ns, q);
      && |idx| == |r|
      && (forall i :: 0 <= i < |idx| ==> idx[i] < |ns| && ns[idx[i]] == r[i])
      && (forall i, j :: 0 <= i < j < |idx| ==> idx[i] < idx[j])
      && (forall j :: 0 <= j < |ns| ==> (j in idx <==> Matches(q, ns[j])))
  {
    if ns == [] {
      idx := [];
    } else {
      var r := Filter(ns[1..], q);
      var rest := FilterIndices(ns[1..], q);
      var shifted := seq(|rest|, i requires 0 <= i < |rest| => rest[i] + 1);
      ShiftedValues(ns, r, rest, shifted);
      ShiftedMembers(ns, q, rest, shifted);
      var head := if Matches(q, ns[0]) then [0] else [];
      idx := head + shifted;
      ConsValues(ns, head, r, shifted);
      ConsOrder(head, shifted);
      ConsMembers(ns, q, head, shifted);
    }
  }

  /** The positions kept from `ns[1..]`, shifted by one, point at the same nodes in `ns`. */
  lemma ShiftedValues(ns: seq<Node>, r: seq<Node>, rest: seq<nat>, shifted: seq<nat>)
    requires |ns| > 0 && |rest| == |r| == |shifted|
    requires forall i :: 0 <= i < |rest| ==> rest[i] < |ns| - 1 && ns[1..][rest[i]] == r[i]
    requires forall i :: 0 <= i < |rest| ==> shifted[i] == rest[i] + 1
    ensures forall i :: 0 <= i < |shifted| ==> 0 < shifted[i] < |ns| && ns[shifted[i]] == r[i]
  {
    forall i | 0 <= i < |shifted| ensures 0 < shifted[i] < |ns| && ns[shifted[i]] == r[i] {
      assert ns[1..][rest[i]] == ns[shifted[i]];
    }
  }

  /** The shifted positions are the matching positions of `ns` after the first. */
  lemma ShiftedMembers(ns: seq<Node>, q: Query, rest: seq<nat>, shifted: seq<nat>)
    requires |ns| > 0 && |rest| == |shifted|
    requires forall j :: 0 <= j < |ns| - 1 ==> (j in rest <==> Matches(q, ns[1..][j]))
    requires forall i :: 0 <= i < |rest| ==> shifted[i] == rest[i] + 1
    ensures forall j :: 0 < j < |ns| ==> (j in shifted <==> Matches(q, ns[j]))
    ensures 0 !in shifted
  {
    forall j | 0 < j < |ns| ensures j in shifted <==> Matches(q, ns[j]) {
      assert ns[1..][j - 1] == ns[j];
      if j - 1 in rest {
        var i :| 0 <= i < |rest| && rest[i] == j - 1;
        assert shifted[i] == j;
      }
    }
  }

  lemma ConsValues(ns: seq<Node>, head: seq<nat>, r: seq<Node>, shifted: seq<nat>)
    requires |ns| > 0 && |shifted| == |r| && (head == [] || head == [0])
    requires forall i :: 0 <= i < |shifted| ==> shifted[i] < |ns| && ns[shifted[i]] == r[i]
    ensures var idx := head + shifted; var out := (if head == [] then [] else [ns[0]]) + r;
      |idx| == |out| && forall i :: 0 <= i < |idx| ==> idx[i] < |ns| && ns[idx[i]] == out[i]
  {
    var idx := head + shifted;
    var out := (if head == [] then [] else [ns[0]]) + r;
    forall i | 0 <= i < |idx| ensures idx[i] < |ns| && ns[idx[i]] == out[i] {
      if i >= |head| {
        assert idx[i] == shifted[i - |head|] && out[i] == r[i - |head|];
      }
    }
  }

  lemma ConsOrder(head: seq<nat>, shifted: seq<nat>)
    requires head == [] || head == [0]
    requires forall i :: 0 <= i < |shifted| ==> 0 < shifted[i]
    requires forall i, j :: 0 <= i < j < |shifted| ==> shifted[i] < shifted[j]
    ensures var idx := head + shifted; forall i, j :: 0 <= i < j < |idx| ==> idx[i] < idx[j]
  {
    var idx := head + shifted;
    forall i, j | 0 <= i < j < |idx| ensures idx[i] < idx[j] {
      assert idx[j] == shifted[j - |head|];
      if i >= |head| {
        assert idx[i] == shifted[i - |head|];
      }
    }
  }

  lemma ConsMembers(ns: seq<Node>, q: Query, head: seq<nat>, shifted: seq<nat>)
    requires |ns| > 0 && head == (if Matches(q, ns[0]) then [0] else [])
    requires forall j :: 0 < j < |ns| ==> (j in shifted <==> Matches(q, ns[j]))
    requires 0 !in shifted
    ensures forall j :: 0 <= j < |ns| ==> (j in head + shifted <==> Matches(q, ns[j]))
  {
  }

  /** `n.select(...)` / `n.find_all(...)`: every descendant selected by `q`, in document order. */
  function SelectAll(n: Node, q: Query): seq<Node> {
    Filter(Descendants(n), q)
  }

  /** `find` and `select` agree: nothing is found exactly when nothing is selected,
      and what is found is the first node selected. */
  lemma {:induction false} FindIsFirstSelected(ns: seq<Node>, q: Query)
    ensures Filter(ns, q) == [] <==> FirstIndex(ns, q) == |ns|
    ensures Filter(ns, q) != [] ==> Filter(ns, q)[0] == ns[FirstIndex(ns, q)]
  {
    if ns != [] && !Matches(q, ns[0]) {
      FindIsFirstSelected(ns[1..], q);
    }
  }
}
