/** The scroll handler of js/script.js: the navbar's `scrolled` class and the
    back-to-top button follow two fixed thresholds, and `updateActiveSection`
    marks the navigation link of the section the page is scrolled into. */
module Navigation {
  import opened Js
  import opened OneHot

  /** Scroll offsets, in pixels, past which the navbar is restyled and the
      back-to-top button shown. */
  const ScrolledAfter: int := 50
  const BackToTopAfter: int := 500
  /** How far above its top a section already counts as reached. */
  const SectionLead: int := 100

  /** A page section with an id: its offset from the top of the page and its
      height. */
  datatype Section = Section(id: string, top: int, height: int)

  /** `updateActiveSection`'s test: the scroll offset lies in the section's
      span moved up by the lead, open at the top and closed at the bottom. */
  predicate InSection(y: int, s: Section) {
    s.top - SectionLead < y <= s.top - SectionLead + s.height
  }

  /** The last section, in page order, whose test passes. */
  function LastHit(sections: seq<Section>, y: int): (r: Option<nat>)
    ensures r.Some? ==> r.value < |sections| && InSection(y, sections[r.value])
    ensures r.Some? ==> forall j :: r.value < j < |sections| ==> !InSection(y, sections[j])
    ensures r.None? ==> forall j :: 0 <= j < |sections| ==> !InSection(y, sections[j])
  {
    if sections == [] then None
    else if InSection(y, sections[|sections| - 1]) then Some(|sections| - 1)
    else LastHit(sections[..|sections| - 1], y)
  }

  /** Sections laid out one below the other without overlap. */
  predicate Stacked(sections: seq<Section>) {
    forall i, j :: 0 <= i < j < |sections| ==> sections[i].top + sections[i].height <= sections[j].top
  }

  /** On a page whose sections do not overlap, the scroll offset is in at
      most one section, and that is the one whose link is marked. */
  lemma {:induction false} StackedHitIsUnique(sections: seq<Section>, y: int, j: nat)
    requires Stacked(sections) && j < |sections| && InSection(y, sections[j])
    ensures LastHit(sections, y) == Some(j)
    ensures forall i :: 0 <= i < |sections| && i != j ==> !InSection(y, sections[i])
  {
    forall i | 0 <= i < |sections| && i != j ensures !InSection(y, sections[i]) {
      if i < j {
        assert sections[i].top + sections[i].height <= sections[j].top;
      } else {
        assert sections[j].top + sections[j].height <= sections[i].top;
      }
    }
  }

  /** The links' `active` flags after `updateActiveSection` at offset `y`:
      unchanged when no section is reached; otherwise all cleared but the
      first link, in document order, pointing at the last section reached
      (the one `querySelector` finds), if any link does. */
  function ActiveAfter(before: seq<bool>, sections: seq<Section>, hrefs: seq<string>, y: int): seq<bool> {
    match LastHit(sections, y)
    case None => before
    case Some(i) => OnlyAt(|hrefs|, IndexOf(hrefs, "#" + sections[i].id))
  }

  /** Once a section is reached at most one link is active, and it is one
      that points at that section. */
  lemma AtMostOneLinkActive(before: seq<bool>, sections: seq<Section>, hrefs: seq<string>, y: int)
    requires LastHit(sections, y).Some?
    ensures CountActive(ActiveAfter(before, sections, hrefs, y)) <= 1
    ensures forall k :: 0 <= k < |hrefs| && ActiveAfter(before, sections, hrefs, y)[k] ==>
              hrefs[k] == "#" + sections[LastHit(sections, y).value].id
  {
    var i := LastHit(sections, y).value;
    ExactlyOneActive(|hrefs|, IndexOf(hrefs, "#" + sections[i].id));
  }

  class Page {
    /** The page's sections with an id, in document order. */
    const sections: seq<Section>
    /** The `href` of each navigation link. */
    const hrefs: seq<string>
    /** Whether each navigation link has the `active` class. */
    const active: array<bool>
    var navbarScrolled: bool
    var backToTopShown: bool
    var lastScroll: int

    constructor (sections: seq<Section>, hrefs: seq<string>)
      ensures this.sections == sections && this.hrefs == hrefs
      ensures fresh(active) && active.Length == |hrefs|
      ensures !navbarScrolled && !backToTopShown && lastScroll == 0
    {
      this.sections := sections;
      this.hrefs := hrefs;
      active := new bool[|hrefs|](_ => false);
      navbarScrolled, backToTopShown := false, false;
      lastScroll := 0;
    }

    /** Clears every link's `active` class and then sets it on link `target`
        when there is such a link. */
    method Highlight(target: nat)
      modifies active
      ensures active[..] == OnlyAt(active.Length, target)
    {
      var k := 0;
      while k < active.Length
        invariant 0 <= k <= active.Length
        invariant forall m :: 0 <= m < k ==> !active[m]
      {
        active[k] := false;
        k := k + 1;
      }
      if target < active.Length {
        active[target] := true;
      }
    }

    /** `updateActiveSection`: every section is tested in order, and each one
        reached clears the links and marks its own, so the last one reached
        wins. */
    method UpdateActiveSection(y: int)
      requires active.Length == |hrefs|
      modifies active
      ensures active[..] == ActiveAfter(old(active[..]), sections, hrefs, y)
    {
      var i := 0;
      while i < |sections|
        invariant 0 <= i <= |sections|
        invariant active[..] == ActiveAfter(old(active[..]), sections[..i], hrefs, y)
      {
        assert sections[..i + 1][..i] == sections[..i];
        if InSection(y, sections[i]) {
          Highlight(IndexOf(hrefs, "#" + sections[i].id));
        }
        i := i + 1;
      }
      assert sections[..i] == sections;
    }

    /** The scroll listener: the navbar is restyled exactly past 50 pixels,
        the active link is updated, the back-to-top button is shown exactly
        past 500 pixels, and the offset is remembered. */
    method OnScroll(y: int)
      requires active.Length == |hrefs|
      modifies this`navbarScrolled, this`backToTopShown, this`lastScroll, active
      ensures navbarScrolled <==> y > ScrolledAfter
      ensures backToTopShown <==> y > BackToTopAfter
      ensures backToTopShown ==> navbarScrolled
      ensures active[..] == ActiveAfter(old(active[..]), sections, hrefs, y)
      ensures lastScroll == y
    {
      if y > ScrolledAfter {
        navbarScrolled := true;
      } else {
        navbarScrolled := false;
      }
      UpdateActiveSection(y);
      if y > BackToTopAfter {
        backToTopShown := true;
      } else {
        backToTopShown := false;
      }
      lastScroll := y;
    }
  }
}
