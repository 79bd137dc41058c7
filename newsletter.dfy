/**
 * The newsletter link reviewer of src/document.py.
 *
 * The parsed page is abstracted to the sequence of its elements in document
 * order. Each element is a `Tag` object whose fields the reviewer updates in
 * place: its tag name, its optional `href` and `target` attributes, its text
 * children, and whether it has been removed from the tree (`decompose`).
 * The status of a URL comes from an oracle, standing for the lookup cache.
 */
module Newsletter {
  import opened Wrappers
  import opened Ascii
  import opened PercentCoding
  import opened LinkPatterns

  /** The bare tracker link the reviewer deletes; the comparison is case-sensitive. */
  const BARE_TRACKER: string := "##TRACKCLICK##"

  const BLANK: string := "_blank"

  /** The value of one element: what `_fix_external_link` reads and writes. */
  datatype TagState = TagState(
    name: string,
    href: Option<string>,
    target: Option<string>,
    children: seq<string>,
    removed: bool)

  /** `_is_external_link`: an `a` element whose `href` is an absolute http(s) URL or a whole placeholder. */
  predicate IsExternalLink(t: TagState) {
    t.name == "a" && t.href.Some? && IsExternalHref(t.href.value)
  }

  /** `find_all` only visits elements still in the tree. */
  predicate Selected(t: TagState) {
    !t.removed && IsExternalLink(t)
  }

  /** A 4xx or 5xx status (RFC 9110, sections 15.5 and 15.6). */
  predicate IsBroken(status: int) {
    400 <= status < 600
  }

  lemma BlankIsFolded()
    ensures Lower(BLANK) == BLANK
  {
    var l := Lower(BLANK);
    assert l[0] == '_' && l[1] == 'b' && l[2] == 'l' && l[3] == 'a' && l[4] == 'n' && l[5] == 'k';
  }

  predicate OpensNewWindow(target: Option<string>) {
    target.Some? && Lower(target.value) == BLANK
  }

  /**
   * The target after step 2: an existing target that already reads `_blank`
   * in any letter case is kept as written, anything else becomes `_blank`.
   * A missing attribute also becomes `_blank` (see RetargetAsWritten).
   */
  function Retarget(target: Option<string>): (r: string)
    ensures Lower(r) == BLANK
    ensures OpensNewWindow(target) ==> Some(r) == target
    ensures !OpensNewWindow(target) ==> r == BLANK
  {
    BlankIsFolded();
    if target.None? || Lower(target.value) != BLANK then BLANK else target.value
  }

  /** The error Python raises when a missing attribute is read by subscript. */
  datatype Fault = KeyError(key: string)

  /**
   * Step 2 as the source writes it: `link['target']` is read by subscript
   * before the `is None` test, and a missing attribute raises KeyError there.
   */
  function RetargetAsWritten(target: Option<string>): (r: Result<string, Fault>)
    ensures r.Failure? <==> target.None?
    ensures r.Success? ==> r.value == Retarget(target)
  {
    match target
    case None => Failure(KeyError("target"))
    case Some(t) => Success(if Lower(t) != BLANK then BLANK else t)
  }

  /** The marker text `*BROKEN <status>*`; the three digits read back as the status. */
  function BrokenMarker(status: int): (m: string)
    requires IsBroken(status)
    ensures |m| == 12 && m[..8] == "*BROKEN " && m[11] == '*'
    ensures forall i :: 8 <= i < 11 ==> '0' <= m[i] <= '9'
    ensures DecimalValue(m[8..11]) == status
  {
    ThreeDigits(status);
    DecimalRoundTrip(status);
    var m := "*BROKEN " + Decimal(status) + "*";
    assert m[8..11] == Decimal(status);
    m
  }

  /** Step 3: the decoded destination of a double-tracked `href`, any other `href` as it is. */
  function Untracked(href: string): string {
    var wrapped := DoubleTrackedUrl(href);
    if wrapped.Some? then UnquotePlus(wrapped.value) else href
  }

  /**
   * The children after step 4: unless the `href` is a whole `##…##`
   * placeholder, its placeholder-stripped URL is looked up, and a marker goes
   * in front when the status is 4xx or 5xx.
   */
  function Marked(children: seq<string>, href: string, status: string -> int): seq<string> {
    if WholePlaceholder(href) then children
    else
      var code := status(StripPlaceholder(href));
      if IsBroken(code) then [BrokenMarker(code)] + children else children
  }

  /** One external link after `_fix_external_link`, the four steps applied in order. */
  function Fixed(l: TagState, status: string -> int): TagState
    requires l.href.Some?
  {
    if l.href.value == BARE_TRACKER then l.(removed := true)
    else
      var href := Untracked(l.href.value);
      l.(target := Some(Retarget(l.target)), href := Some(href), children := Marked(l.children, href, status))
  }

  /** The whole link repair as the source writes it: a link without a target aborts it with KeyError. */
  function FixedAsWritten(l: TagState, status: string -> int): (r: Result<TagState, Fault>)
    requires l.href.Some?
  {
    if l.href.value == BARE_TRACKER then Success(l.(removed := true))
    else match RetargetAsWritten(l.target)
      case Failure(f) => Failure(f)
      case Success(t) =>
        var href := Untracked(l.href.value);
        Success(l.(target := Some(t), href := Some(href), children := Marked(l.children, href, status)))
  }

  /** As written, exactly the untargeted links fail; on every other link the two agree. */
  lemma FixedAsWrittenDiffers(l: TagState, status: string -> int)
    requires l.href.Some?
    ensures FixedAsWritten(l, status).Failure? <==> l.href.value != BARE_TRACKER && l.target.None?
    ensures FixedAsWritten(l, status).Success? ==> FixedAsWritten(l, status).value == Fixed(l, status)
  {
  }

  /** A concrete untargeted link: the source raises, the model sets `_blank`. */
  lemma UntargetedLinkRaises(status: string -> int)
    ensures var l := TagState("a", Some("https://www.google.com"), None, ["UNTARGETTED HYPERLINK"], false);
            FixedAsWritten(l, status) == Failure(KeyError("target")) && Fixed(l, status).target == Some(BLANK)
  {
  }

  // ---------------------------------------------------------------------------
  // What one repair does
  // ---------------------------------------------------------------------------

  /** A bare `##TRACKCLICK##` link is removed and nothing else about it changes. */
  lemma BareTrackerIsRemoved(l: TagState, status: string -> int)
    requires l.href == Some(BARE_TRACKER)
    ensures Fixed(l, status) == l.(removed := true)
  {
  }

  /** Any other link survives, opens in a new window, and keeps a target that already did. */
  lemma SurvivorOpensNewWindow(l: TagState, status: string -> int)
    requires l.href.Some? && l.href.value != BARE_TRACKER
    ensures Fixed(l, status).removed == l.removed
    ensures OpensNewWindow(Fixed(l, status).target)
    ensures OpensNewWindow(l.target) ==> Fixed(l, status).target == l.target
  {
  }

  /** A double-tracked `href` is replaced by its decoded `url=` value; any other stays as it was. */
  lemma HrefIsUntracked(l: TagState, status: string -> int)
    requires l.href.Some? && l.href.value != BARE_TRACKER
    ensures DoubleTrackedUrl(l.href.value).Some? ==>
              Fixed(l, status).href == Some(UnquotePlus(DoubleTrackedUrl(l.href.value).value))
    ensures DoubleTrackedUrl(l.href.value).None? ==> Fixed(l, status).href == l.href
  {
  }

  /**
   * The marker rule: `*BROKEN <status>*` goes in front of the children iff
   * the final `href` is not a whole placeholder and the status of its
   * placeholder-stripped URL is 4xx or 5xx; otherwise the children stay.
   */
  lemma MarkerRule(l: TagState, status: string -> int)
    requires l.href.Some? && l.href.value != BARE_TRACKER
    ensures var h := Untracked(l.href.value);
            var broken := !WholePlaceholder(h) && IsBroken(status(StripPlaceholder(h)));
            && (broken ==> Fixed(l, status).children == [BrokenMarker(status(StripPlaceholder(h)))] + l.children)
            && (!broken ==> Fixed(l, status).children == l.children)
  {
  }

  /** The example of a broken link: `href` kept, target corrected, `*BROKEN 410*` in front. */
  lemma BrokenLinkExample(l: TagState, status: string -> int)
    requires l == TagState("a", Some("https://www.shitface.org"), Some("_self"), ["X"], false)
    requires status("https://www.shitface.org") == 410
    ensures Fixed(l, status) == l.(target := Some(BLANK), children := ["*BROKEN 410*", "X"])
  {
    var h := "https://www.shitface.org";
    PlainUrl(h);
    assert Lower("_self") != BLANK by {
      assert Lower("_self")[1] == 's';
    }
    Marker410();
  }

  lemma Marker410()
    ensures BrokenMarker(410) == "*BROKEN 410*"
  {
    ThreeDigits(410);
    assert Decimal(410) == "410";
  }

  /** The example's URL is neither double-tracked nor a placeholder, and is looked up as it is. */
  lemma PlainUrl(h: string)
    requires h == "https://www.shitface.org"
    ensures Untracked(h) == h && !WholePlaceholder(h) && StripPlaceholder(h) == h
  {
    assert !TrackerPage(h) by {
      assert LowerChar(h[4]) == 's';
      if StartsWithFolded(h, TRACKER_V) { FoldedAt(h, TRACKER_V, 4); }
      if StartsWithFolded(h, TRACKER_T) { FoldedAt(h, TRACKER_T, 4); }
    }
    assert BeforeEnd(h) == h;
    assert forall k :: !ClosesAt(h, k);
  }

  /** Reviewing again is not idempotent: a link still broken gains a second marker. */
  lemma SecondReviewAddsMarker(l: TagState, status: string -> int)
    requires l.href.Some? && l.href.value != BARE_TRACKER
    requires DoubleTrackedUrl(l.href.value).None? && !WholePlaceholder(l.href.value)
    requires IsBroken(status(StripPlaceholder(l.href.value)))
    ensures var m := BrokenMarker(status(StripPlaceholder(l.href.value)));
            Fixed(Fixed(l, status), status).children == [m, m] + l.children
  {
    var l2 := Fixed(l, status);
    var m := BrokenMarker(status(StripPlaceholder(l.href.value)));
    HrefIsUntracked(l, status);
    MarkerRule(l, status);
    assert l2.href == l.href && l2.children == [m] + l.children;
    MarkerRule(l2, status);
  }

  // ---------------------------------------------------------------------------
  // What a review does to the whole document
  // ---------------------------------------------------------------------------

  /** `review`: every element selected before any change is repaired once; all others stay. */
  function Reviewed(ts: seq<TagState>, status: string -> int): (r: seq<TagState>)
    ensures |r| == |ts|
  {
    if ts == [] then []
    else [if Selected(ts[0]) then Fixed(ts[0], status) else ts[0]] + Reviewed(ts[1..], status)
  }

  /** Position by position, a review repairs the selected elements and keeps the others. */
  lemma {:induction false} ReviewedAt(ts: seq<TagState>, status: string -> int, i: int)
    requires 0 <= i < |ts|
    ensures Reviewed(ts, status)[i] == if Selected(ts[i]) then Fixed(ts[i], status) else ts[i]
  {
    if i > 0 {
      ReviewedAt(ts[1..], status, i - 1);
    }
  }

  /** Strictly increasing positions, each below `n`. */
  predicate Positions(pos: seq<int>, n: int) {
    && (forall m :: 0 <= m < |pos| ==> 0 <= pos[m] < n)
    && (forall m, m' :: 0 <= m < m' < |pos| ==> pos[m] < pos[m'])
  }

  /** The positions below `n` of the elements a review selects, in document order. */
  function SelectedBelow(ts: seq<TagState>, n: int): (pos: seq<int>)
    requires 0 <= n <= |ts|
    ensures forall m :: 0 <= m < |pos| ==> 0 <= pos[m] < n
  {
    if n == 0 then []
    else SelectedBelow(ts, n - 1) + (if Selected(ts[n - 1]) then [n - 1] else [])
  }

  /** The collected positions increase, and they are exactly the selected ones. */
  lemma {:induction false} SelectedBelowIs(ts: seq<TagState>, n: int)
    requires 0 <= n <= |ts|
    ensures Positions(SelectedBelow(ts, n), n)
    ensures forall j :: 0 <= j < n ==> (Selected(ts[j]) <==> j in SelectedBelow(ts, n))
  {
    if n > 0 {
      SelectedBelowIs(ts, n - 1);
      var before, pos := SelectedBelow(ts, n - 1), SelectedBelow(ts, n);
      assert pos == before + (if Selected(ts[n - 1]) then [n - 1] else []);
      forall j | 0 <= j < n
        ensures Selected(ts[j]) <==> j in pos
      {
        if j < n - 1 {
          assert j in pos <==> j in before;
        }
      }
    }
  }

  /** The `k`-th collected element is selected and comes after the one before it. */
  lemma SelectedPositionAt(ts: seq<TagState>, k: int)
    requires 0 <= k < |SelectedBelow(ts, |ts|)|
    ensures var pos := SelectedBelow(ts, |ts|);
            Selected(ts[pos[k]]) && (k > 0 ==> pos[k - 1] < pos[k])
  {
    SelectedBelowIs(ts, |ts|);
    assert SelectedBelow(ts, |ts|)[k] in SelectedBelow(ts, |ts|);
  }

  /**
   * A review repairs exactly the elements at the collected positions: the
   * elements between two consecutive positions, and after the last one, are
   * left as they are.
   */
  lemma ReviewedAtPositions(ts: seq<TagState>, status: string -> int, k: int, i: int)
    requires 0 <= i < |ts|
    requires var pos := SelectedBelow(ts, |ts|);
             0 <= k <= |pos| && (k == 0 || pos[k - 1] < i) && (k == |pos| || i < pos[k])
    ensures Reviewed(ts, status)[i] == ts[i]
  {
    SelectedBelowIs(ts, |ts|);
    NotAPosition(SelectedBelow(ts, |ts|), |ts|, k, i);
    ReviewedAt(ts, status, i);
  }

  lemma NotAPosition(pos: seq<int>, n: int, k: int, i: int)
    requires Positions(pos, n)
    requires 0 <= k <= |pos|
    requires (k == 0 || pos[k - 1] < i) && (k == |pos| || i < pos[k])
    ensures i !in pos
  {
    forall m | 0 <= m < |pos|
      ensures pos[m] != i
    {
      if m < k {
        assert pos[m] <= pos[k - 1];
      } else {
        assert pos[k] <= pos[m];
      }
    }
  }

  /** How far into the document the first `k` repairs reach: just past the `k`-th collected position. */
  function RepairedUpTo(pos: seq<int>, k: int): int
    requires 0 <= k <= |pos|
  {
    if k == 0 then 0 else pos[k - 1] + 1
  }

  /**
   * How `review` turns `before` into `after`: the elements at the collected
   * positions `pos`, in increasing order, are repaired, and the elements
   * between them and after the last are left as they are.
   */
  ghost predicate RepairPlan(before: seq<TagState>, after: seq<TagState>, pos: seq<int>, status: string -> int) {
    && |after| == |before|
    && PlanOrder(pos, |before|)
    && PlanRepairs(before, after, pos, status)
    && PlanKeeps(before, after, pos)
  }

  /** Each collected position is inside the document and past the repairs before it. */
  ghost predicate PlanOrder(pos: seq<int>, n: int) {
    && (forall k :: 0 <= k < |pos| ==> 0 <= pos[k] < n)
    && (forall k {:trigger RepairedUpTo(pos, k)} :: 0 <= k < |pos| ==> RepairedUpTo(pos, k) <= pos[k])
  }

  /** The element at each collected position is an external link, repaired in `after`. */
  ghost predicate PlanRepairs(before: seq<TagState>, after: seq<TagState>, pos: seq<int>, status: string -> int)
    requires |after| == |before| && PlanOrder(pos, |before|)
  {
    forall k :: 0 <= k < |pos| ==> RepairedAt(before, after, pos[k], status)
  }

  /** The element at `p` is an external link in `before`, repaired in `after`. */
  ghost predicate RepairedAt(before: seq<TagState>, after: seq<TagState>, p: int, status: string -> int)
    requires 0 <= p < |before| == |after|
  {
    before[p].href.Some? && after[p] == Fixed(before[p], status)
  }

  /** The elements between the collected positions, and after the last, are kept. */
  ghost predicate PlanKeeps(before: seq<TagState>, after: seq<TagState>, pos: seq<int>)
    requires |after| == |before| && PlanOrder(pos, |before|)
  {
    && (forall k, i {:trigger RepairedUpTo(pos, k), after[i]} ::
          0 <= k < |pos| && RepairedUpTo(pos, k) <= i < pos[k] ==> after[i] == before[i])
    && (forall i :: RepairedUpTo(pos, |pos|) <= i < |before| ==> after[i] == before[i])
  }

  /** A review follows the plan over the positions `find_all` collects. */
  lemma ReviewPlan(ts: seq<TagState>, status: string -> int)
    ensures RepairPlan(ts, Reviewed(ts, status), SelectedBelow(ts, |ts|), status)
  {
    ReviewOrder(ts);
    ReviewRepairs(ts, status);
    ReviewKeeps(ts, status);
  }

  /** The positions `find_all` collects increase. */
  lemma ReviewOrder(ts: seq<TagState>)
    ensures PlanOrder(SelectedBelow(ts, |ts|), |ts|)
  {
    var pos := SelectedBelow(ts, |ts|);
    forall k {:trigger RepairedUpTo(pos, k)} | 0 <= k < |pos|
      ensures RepairedUpTo(pos, k) <= pos[k]
    {
      SelectedPositionAt(ts, k);
    }
  }

  /** A review repairs every element at a collected position. */
  lemma ReviewRepairs(ts: seq<TagState>, status: string -> int)
    ensures PlanOrder(SelectedBelow(ts, |ts|), |ts|)
    ensures PlanRepairs(ts, Reviewed(ts, status), SelectedBelow(ts, |ts|), status)
  {
    ReviewOrder(ts);
    var pos, after := SelectedBelow(ts, |ts|), Reviewed(ts, status);
    forall k | 0 <= k < |pos|
      ensures RepairedAt(ts, after, pos[k], status)
    {
      ReviewRepairsAt(ts, status, k);
    }
  }

  /** The `k`-th collected element is an external link, and a review repairs it. */
  lemma ReviewRepairsAt(ts: seq<TagState>, status: string -> int, k: int)
    requires 0 <= k < |SelectedBelow(ts, |ts|)|
    ensures RepairedAt(ts, Reviewed(ts, status), SelectedBelow(ts, |ts|)[k], status)
  {
    SelectedPositionAt(ts, k);
    ReviewedAt(ts, status, SelectedBelow(ts, |ts|)[k]);
  }

  /** A review keeps every element away from the collected positions. */
  lemma ReviewKeeps(ts: seq<TagState>, status: string -> int)
    ensures PlanOrder(SelectedBelow(ts, |ts|), |ts|)
    ensures PlanKeeps(ts, Reviewed(ts, status), SelectedBelow(ts, |ts|))
  {
    ReviewOrder(ts);
    var pos, after := SelectedBelow(ts, |ts|), Reviewed(ts, status);
    forall k, i {:trigger RepairedUpTo(pos, k), after[i]} | 0 <= k < |pos| && RepairedUpTo(pos, k) <= i < pos[k]
      ensures after[i] == ts[i]
    {
      ReviewedAtPositions(ts, status, k, i);
    }
    forall i | RepairedUpTo(pos, |pos|) <= i < |ts|
      ensures after[i] == ts[i]
    {
      ReviewedAtPositions(ts, status, |pos|, i);
    }
  }

  /** Elements that are not external links in the tree are untouched by a review. */
  lemma ReviewLeavesOthers(ts: seq<TagState>, status: string -> int, i: int)
    requires 0 <= i < |ts| && !Selected(ts[i])
    ensures Reviewed(ts, status)[i] == ts[i]
  {
    ReviewedAt(ts, status, i);
  }

  /** After a review, every external link still in the tree opens in a new window. */
  lemma ReviewRetargetsSurvivors(ts: seq<TagState>, status: string -> int, i: int)
    requires 0 <= i < |ts| && Selected(ts[i]) && !Reviewed(ts, status)[i].removed
    ensures OpensNewWindow(Reviewed(ts, status)[i].target)
  {
    ReviewedAt(ts, status, i);
    SurvivorOpensNewWindow(ts[i], status);
  }

  /** A review removes bare tracker links and nothing else. */
  lemma ReviewRemovesOnlyBareTrackers(ts: seq<TagState>, status: string -> int, i: int)
    requires 0 <= i < |ts|
    ensures Reviewed(ts, status)[i].removed && !ts[i].removed <==> Selected(ts[i]) && ts[i].href == Some(BARE_TRACKER)
  {
    ReviewedAt(ts, status, i);
  }

  // ---------------------------------------------------------------------------
  // The mutable document
  // ---------------------------------------------------------------------------

  /** An element of the parsed page; `_fix_external_link` updates its fields in place. */
  class Tag {
    var name: string
    var href: Option<string>
    var target: Option<string>
    var children: seq<string>
    var removed: bool

    constructor (name: string, href: Option<string>, target: Option<string>, children: seq<string>)
      ensures State() == TagState(name, href, target, children, false)
    {
      this.name, this.href, this.target, this.children, this.removed := name, href, target, children, false;
    }

    function State(): TagState
      reads this
    {
      TagState(name, href, target, children, removed)
    }
  }

  /** No element occurs twice: each one is new at its position. */
  ghost predicate Distinct(ts: seq<Tag>) {
    forall i :: 0 <= i < |ts| ==> ts[i] !in ts[..i]
  }

  /** The current fields of each element, in order. */
  function StatesOf(ts: seq<Tag>): (r: seq<TagState>)
    reads ts
    ensures |r| == |ts| && forall i :: 0 <= i < |ts| ==> r[i] == ts[i].State()
  {
    if ts == [] then [] else StatesOf(ts[..|ts| - 1]) + [ts[|ts| - 1].State()]
  }

  class Document {
    /** Every element of the parsed page, in document order. */
    var tags: seq<Tag>

    ghost predicate Valid()
      reads this
    {
      Distinct(tags)
    }

    /** A document over the given elements, in document order. */
    constructor (elements: seq<Tag>)
      requires Distinct(elements)
      ensures Valid() && tags == elements
    {
      tags := elements;
    }

    function States(): (r: seq<TagState>)
      reads this, tags
      ensures |r| == |tags| && forall i :: 0 <= i < |tags| ==> r[i] == tags[i].State()
    {
      StatesOf(tags)
    }

    /**
     * `find_all(_is_external_link)`: the external links still in the tree, in
     * document order; `pos` gives the index of each among the elements.
     */
    method FindExternalLinks() returns (found: seq<Tag>, ghost pos: seq<int>)
      ensures pos == SelectedBelow(States(), |tags|)
      ensures |found| == |pos| && forall m :: 0 <= m < |pos| ==> found[m] == tags[pos[m]]
      ensures forall m :: 0 <= m < |found| ==> found[m] in tags && Selected(found[m].State())
    {
      found, pos := [], [];
      for i := 0 to |tags|
        invariant Collected(found, pos, i)
      {
        if Selected(tags[i].State()) {
          found, pos := found + [tags[i]], pos + [i];
        }
      }
    }

    /** What `find_all` has gathered after looking at the first `i` elements. */
    ghost predicate Collected(found: seq<Tag>, pos: seq<int>, i: int)
      reads this, tags
    {
      0 <= i <= |tags| && pos == SelectedBelow(States(), i)
      && |found| == |pos| && (forall m :: 0 <= m < |pos| ==> found[m] == tags[pos[m]])
      && forall m :: 0 <= m < |found| ==> found[m] in tags && Selected(found[m].State())
    }

    /** `_fix_external_link`: the four repair steps, in order, on one external link. */
    method FixExternalLink(link: Tag, status: string -> int)
      requires link.href.Some?
      modifies link
      ensures link.State() == Fixed(old(link.State()), status)
    {
      if link.href.value == BARE_TRACKER {
        link.removed := true;
        return;
      }
      SetBlankTarget(link);
      UnwrapTracker(link);
      MarkIfBroken(link, status);
    }

    /**
     * Second step of `_fix_external_link`: the link is made to open in a new
     * window. The source reads link['target'] by subscript, which raises
     * KeyError when the attribute is missing; a missing target is set to
     * _blank here.
     */
    method SetBlankTarget(link: Tag)
      modifies link
      ensures link.State() == old(link.State()).(target := Some(Retarget(old(link.target))))
    {
      if link.target.None? || Lower(link.target.value) != BLANK {
        link.target := Some(BLANK);
      }
    }

    /** Third step of `_fix_external_link`: a URL wrapped in a second tracker is decoded. */
    method UnwrapTracker(link: Tag)
      requires link.href.Some?
      modifies link
      ensures link.State() == old(link.State()).(href := Some(Untracked(old(link.href.value))))
    {
      var wrapped := DoubleTrackedUrl(link.href.value);
      if wrapped.Some? {
        link.href := Some(UnquotePlus(wrapped.value));
      }
    }

    /** Last step of `_fix_external_link`: a link whose page reports 4xx or 5xx gets a marker. */
    method MarkIfBroken(link: Tag, status: string -> int)
      requires link.href.Some?
      modifies link
      ensures link.State() == old(link.State()).(children := Marked(old(link.children), old(link.href.value), status))
    {
      var href := link.href.value;
      if !WholePlaceholder(href) {
        var url := StripPlaceholder(href);
        var code := status(url);
        if IsBroken(code) {
          link.children := [BrokenMarker(code)] + link.children;
        }
      }
    }

    /** `review`: collect the external links first, then repair each of them in document order. */
    method Review(status: string -> int)
      requires Valid()
      modifies tags
      ensures States() == Reviewed(old(States()), status)
    {
      ghost var before := States();
      ghost var after := Reviewed(before, status);
      var found, pos := FindExternalLinks();
      ReviewPlan(before, status);
      StartRepairing(found, pos, status, before, after);
      RepairAll(found, pos, status, before, after);
      FinishRepairing(found, pos, status, before, after);
    }

    /** Right after `find_all`, no element is repaired yet. */
    lemma StartRepairing(found: seq<Tag>, pos: seq<int>, status: string -> int,
                         before: seq<TagState>, after: seq<TagState>)
      requires Valid() && before == States() && RepairPlan(before, after, pos, status)
      requires |found| == |pos| && forall m :: 0 <= m < |pos| ==> found[m] == tags[pos[m]]
      ensures Repairing(found, pos, 0, status, before, after)
    {
    }

    /** Once every collected link is repaired, every element is in its planned state. */
    lemma FinishRepairing(found: seq<Tag>, pos: seq<int>, status: string -> int,
                          before: seq<TagState>, after: seq<TagState>)
      requires Repairing(found, pos, |pos|, status, before, after)
      ensures States() == after
    {
    }

    /** The loop of `review`: the collected links are repaired one after the other. */
    method RepairAll(found: seq<Tag>, ghost pos: seq<int>, status: string -> int,
                     ghost before: seq<TagState>, ghost after: seq<TagState>)
      requires Repairing(found, pos, 0, status, before, after)
      modifies tags
      ensures Repairing(found, pos, |pos|, status, before, after)
    {
      for k := 0 to |found|
        invariant Repairing(found, pos, k, status, before, after)
      {
        RepairNext(found, pos, k, status, before, after);
      }
    }

    /**
     * The state of `review` after `k` repairs: `found` holds the links
     * collected at the positions `pos`, the elements before the position
     * of the `k`-th one are in their planned state `after`, and the others
     * still in their initial state `before`.
     */
    ghost predicate Repairing(found: seq<Tag>, pos: seq<int>, k: int, status: string -> int,
                              before: seq<TagState>, after: seq<TagState>)
      reads this, tags
    {
      && Valid() && |before| == |tags| && RepairPlan(before, after, pos, status) && 0 <= k <= |pos|
      && |found| == |pos| && (forall m :: 0 <= m < |pos| ==> found[m] == tags[pos[m]])
      && forall i :: 0 <= i < |tags| ==> tags[i].State() == if i < RepairedUpTo(pos, k) then after[i] else before[i]
    }

    /** One step of `review`: the `k`-th collected link is repaired and no other element changes. */
    method RepairNext(found: seq<Tag>, ghost pos: seq<int>, k: int, status: string -> int,
                      ghost before: seq<TagState>, ghost after: seq<TagState>)
      requires Repairing(found, pos, k, status, before, after) && k < |pos|
      modifies found[k]
      ensures Repairing(found, pos, k + 1, status, before, after)
    {
      ghost var p := pos[k];
      assert tags[p].State() == before[p];
      FixExternalLink(found[k], status);
      forall i | 0 <= i < |tags| && i != p
        ensures tags[i].State() == old(tags[i].State())
      {
        if i < p {
          assert tags[..p][i] == tags[i];
        } else {
          assert tags[..i][p] == tags[p];
        }
        assert tags[i] != found[k];
      }
    }
  }
}
