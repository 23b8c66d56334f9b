/** The page script's state coordinator: the `app` object (current page, testimonial index,
    modal flag, autoplay handle) and the `active` flags it keeps on pages, navigation links,
    testimonials and FAQ items, driven by one method per event. */
module Site {
  import Text
  import Carousel
  import Router
  import Faq
  import Forms

  datatype Option<T> = None | Some(value: T)

  /** The parts of the loaded document the script looks at: every element id, the ids of the
      `.page` sections in document order, the `href` of each `.nav__link`, the number of
      `.testimonial` slides, the `.faq-item`s, the modal, and the classes the markup gives
      them before the script runs. */
  datatype Document = Document(
    ids: set<string>,
    pages: seq<string>,
    pageActive: seq<bool>,
    navHrefs: seq<string>,
    navActive: seq<bool>,
    testimonialCount: nat,
    faqOpen: seq<bool>,
    modalPresent: bool,
    modalHidden: bool)

  /** Element ids are unique, every page section has one, and none is empty
      (`getElementById('')` finds nothing). */
  predicate WellFormed(doc: Document) {
    && "" !in doc.ids
    && |doc.pageActive| == |doc.pages|
    && |doc.navActive| == |doc.navHrefs|
    && (forall i, j :: 0 <= i < j < |doc.pages| ==> doc.pages[i] != doc.pages[j])
    && (forall i :: 0 <= i < |doc.pages| ==> doc.pages[i] in doc.ids)
  }

  class App {
    const elementIds: set<string>
    const pages: seq<string>
    const navHrefs: seq<string>
    const testimonialCount: nat
    const modalPresent: bool

    var currentPage: string
    var testimonialIndex: nat
    var isModalOpen: bool
    /** `app.testimonialAutoplay`: the handle of the running interval, or `null`. */
    var autoplay: Option<nat>
    /** The handle the next `setInterval` returns. */
    var nextTimerId: nat

    var pageActive: seq<bool>
    var navActive: seq<bool>
    var testimonialActive: seq<bool>
    var faqOpen: seq<bool>
    var modalHidden: bool

    /** `document.body.style.overflow` is `hidden`. */
    ghost var bodyScrollLocked: bool
    /** The fragments `history.pushState` has pushed, oldest first. */
    ghost var history: seq<string>
    /** The intervals the browser will still fire. */
    ghost var liveIntervals: set<nat>

    ghost predicate Valid()
      reads this
    {
      && |pageActive| == |pages| && |navActive| == |navHrefs|
      && |testimonialActive| == testimonialCount
      && (forall i, j :: 0 <= i < j < |pages| ==> pages[i] != pages[j])
      && (forall i :: 0 <= i < |pages| ==> pages[i] in elementIds)
      && "" !in elementIds
      // the carousel shows exactly the slide at the current index
      && (if testimonialCount == 0 then testimonialIndex == 0 else testimonialIndex < testimonialCount)
      && (forall j :: 0 <= j < testimonialCount ==> (testimonialActive[j] <==> j == testimonialIndex))
      // at most one autoplay interval is live, and it is the one the handle names
      && liveIntervals == (if autoplay.Some? then {autoplay.value} else {})
      && (autoplay.Some? ==> autoplay.value < nextTimerId)
      && (isModalOpen ==> modalPresent && !modalHidden && bodyScrollLocked)
    }

    /** Autoplay only runs while the home page is the current page. */
    ghost predicate AutoplayOnHome()
      reads this
    {
      autoplay.Some? ==> currentPage == "home"
    }

    /** The state after the `DOMContentLoaded` handler on `doc`, with `location.hash` equal to
        `hash`: the carousel is initialised, then the page the fragment names is shown. */
    constructor (doc: Document, hash: string)
      requires WellFormed(doc)
      ensures Valid() && AutoplayOnHome()
      ensures elementIds == doc.ids && pages == doc.pages && navHrefs == doc.navHrefs
      ensures testimonialCount == doc.testimonialCount && modalPresent == doc.modalPresent
      ensures testimonialIndex == 0 && faqOpen == doc.faqOpen
      ensures !isModalOpen && modalHidden == doc.modalHidden && !bodyScrollLocked
      ensures var p := Router.PageFromHash(hash);
        && (forall j :: 0 <= j < |pages| ==> (pageActive[j] <==> p in elementIds && pages[j] == p))
        && (p in elementIds ==> currentPage == p && history == ["#" + p])
        && (p in elementIds ==> forall j :: 0 <= j < |navHrefs| ==> (navActive[j] <==> navHrefs[j] == "#" + p))
        && (p !in elementIds ==> currentPage == "home" && history == [] && navActive == doc.navActive)
        && (autoplay.Some? <==> if p in elementIds then p == "home" else testimonialCount > 0)
    {
      elementIds := doc.ids;
      pages := doc.pages;
      navHrefs := doc.navHrefs;
      testimonialCount := doc.testimonialCount;
      modalPresent := doc.modalPresent;
      currentPage := "home";
      testimonialIndex := 0;
      isModalOpen := false;
      autoplay := None;
      nextTimerId := 1;
      pageActive := doc.pageActive;
      navActive := doc.navActive;
      testimonialActive := seq(doc.testimonialCount, j => j == 0);
      faqOpen := doc.faqOpen;
      modalHidden := doc.modalHidden;
      bodyScrollLocked := false;
      history := [];
      liveIntervals := {};
      new;
      InitializeTestimonials();
      ShowPage(Router.PageFromHash(hash));
    }

    /** `initializeTestimonials`: with at least one slide, only the first is shown and
        autoplay starts; without slides nothing happens. */
    method InitializeTestimonials()
      requires Valid()
      modifies this`testimonialIndex, this`testimonialActive
      modifies this`autoplay, this`liveIntervals, this`nextTimerId
      ensures Valid()
      ensures testimonialCount > 0 ==> testimonialIndex == 0
      ensures testimonialCount > 0 ==> autoplay == Some(old(nextTimerId)) && nextTimerId == old(nextTimerId) + 1
      ensures testimonialCount == 0 ==> autoplay == old(autoplay) && nextTimerId == old(nextTimerId)
    {
      if testimonialCount == 0 {
        return;
      }
      var j := 0;
      while j < testimonialCount
        invariant 0 <= j <= testimonialCount && |testimonialActive| == testimonialCount
        invariant forall i :: 0 <= i < j ==> (testimonialActive[i] <==> i == 0)
        modifies this`testimonialActive
      {
        testimonialActive := testimonialActive[j := j == 0];
        j := j + 1;
      }
      testimonialIndex := 0;
      StartAutoplay();
    }

    // ---------------------------------------------------------------- pages

    /** The state `showPage(id)` leaves, relative to the state before it: every page but the
        one with id `id` is inactive; when `id` names an element it is the current page, `#id`
        is pushed, exactly the links to `#id` are active, and autoplay is re-armed on `home`
        and stopped elsewhere; when it names none, nothing else changes. */
    twostate predicate PageShown(id: string)
      reads this
    {
      && (forall j :: 0 <= j < |pages| && j < |pageActive| ==> (pageActive[j] <==> id in elementIds && pages[j] == id))
      && (id in elementIds ==>
            && currentPage == id && history == old(history) + ["#" + id]
            && (forall j :: 0 <= j < |navHrefs| && j < |navActive| ==> (navActive[j] <==> navHrefs[j] == "#" + id))
            && (if id == "home" then autoplay == Some(old(nextTimerId)) && nextTimerId == old(nextTimerId) + 1
                else autoplay == None && nextTimerId == old(nextTimerId)))
      && (id !in elementIds ==>
            && currentPage == old(currentPage) && history == old(history) && navActive == old(navActive)
            && autoplay == old(autoplay) && nextTimerId == old(nextTimerId))
    }

    /** `showPage(id)`: every page loses `active`; when `id` names an element, that element
        gains it, `id` becomes the current page and is pushed as the fragment, the navigation
        link for it becomes the only active one, and autoplay restarts on `home` and stops
        elsewhere. */
    method ShowPage(id: string)
      requires Valid()
      modifies this`pageActive, this`currentPage, this`history, this`navActive
      modifies this`autoplay, this`liveIntervals, this`nextTimerId
      ensures Valid()
      ensures PageShown(id)
      ensures old(AutoplayOnHome()) || id in elementIds ==> AutoplayOnHome()
    {
      pageActive := Deactivated(pageActive);
      if id in elementIds {
        ActivatePage(id);
      }
    }

    /** The part of `showPage(id)` that runs once every page is inactive and `id` names an
        element. */
    method ActivatePage(id: string)
      requires Valid() && id in elementIds
      requires forall j :: 0 <= j < |pages| ==> !pageActive[j]
      modifies this`pageActive, this`currentPage, this`history, this`navActive
      modifies this`autoplay, this`liveIntervals, this`nextTimerId
      ensures Valid()
      ensures forall j :: 0 <= j < |pages| ==> (pageActive[j] <==> pages[j] == id)
      ensures currentPage == id && history == old(history) + ["#" + id]
      ensures forall j :: 0 <= j < |navHrefs| ==> (navActive[j] <==> navHrefs[j] == "#" + id)
      ensures id == "home" ==> autoplay == Some(old(nextTimerId)) && nextTimerId == old(nextTimerId) + 1
      ensures id != "home" ==> autoplay == None && nextTimerId == old(nextTimerId)
    {
      var k := IndexOfPage(id);
      if k < |pages| {
        pageActive := pageActive[k := true];
      }
      currentPage := id;
      history := history + ["#" + id];
      UpdateActiveNavLink(id);
      if id == "home" {
        StartAutoplay();
      } else {
        StopAutoplay();
      }
    }

    /** The position of the page section with id `id`, or `|pages|` when no page has it. */
    function IndexOfPage(id: string): (k: nat)
      requires Valid()
      reads this
      ensures k <= |pages|
      ensures k < |pages| ==> pages[k] == id
      ensures k == |pages| ==> id !in pages
    {
      Text.IndexOf(pages, id)
    }

    /** `updateActiveNavLink(id)`: only the links whose `href` is `#id` stay active. */
    method UpdateActiveNavLink(id: string)
      requires Valid()
      modifies this`navActive
      ensures Valid()
      ensures forall j :: 0 <= j < |navHrefs| ==> (navActive[j] <==> navHrefs[j] == "#" + id)
    {
      var j := 0;
      while j < |navHrefs|
        invariant 0 <= j <= |navHrefs| && |navActive| == |navHrefs|
        invariant forall i :: 0 <= i < j ==> (navActive[i] <==> navHrefs[i] == "#" + id)
        modifies this`navActive
      {
        navActive := navActive[j := navHrefs[j] == "#" + id];
        j := j + 1;
      }
    }

    /** The listener `initializeNavigation` puts on every navigation and footer link:
        `showPage(href.substring(1))`. */
    method FollowLink(href: string)
      requires Valid()
      modifies this`pageActive, this`currentPage, this`history, this`navActive
      modifies this`autoplay, this`liveIntervals, this`nextTimerId
      ensures Valid()
      ensures PageShown(Router.LinkTarget(href))
      ensures Router.LinkTarget(href) == [] ==>
        (forall j :: 0 <= j < |pages| ==> !pageActive[j]) && currentPage == old(currentPage)
      ensures old(AutoplayOnHome()) ==> AutoplayOnHome()
    {
      ShowPage(Router.LinkTarget(href));
    }

    /** The listener `initializeSmoothScroll` puts on every link whose `href` is `#contact`,
        and the page switch of a service call-to-action: `showPage('contact')`. */
    method ShowContact()
      requires Valid()
      modifies this`pageActive, this`currentPage, this`history, this`navActive
      modifies this`autoplay, this`liveIntervals, this`nextTimerId
      ensures Valid()
      ensures PageShown("contact")
      ensures "contact" in elementIds ==> history == old(history) + ["#contact"] && autoplay == None
      ensures old(AutoplayOnHome()) ==> AutoplayOnHome()
    {
      assert "#" + "contact" == "#contact";
      ShowPage("contact");
    }

    /** A click on a navigation or footer link runs every listener it carries, in the order
        they were added: the navigation listener, then, for `#contact`, the second listener
        of `initializeSmoothScroll`, so such a click shows the page and pushes `#contact`
        twice. */
    method ClickLink(href: string)
      requires Valid()
      modifies this`pageActive, this`currentPage, this`history, this`navActive
      modifies this`autoplay, this`liveIntervals, this`nextTimerId
      ensures Valid()
      ensures href != "#contact" || "contact" !in elementIds ==> PageShown(Router.LinkTarget(href))
      ensures href == "#contact" && "contact" in elementIds ==>
        && (forall j :: 0 <= j < |pages| ==> (pageActive[j] <==> pages[j] == "contact"))
        && currentPage == "contact" && history == old(history) + ["#contact", "#contact"]
        && (forall j :: 0 <= j < |navHrefs| ==> (navActive[j] <==> navHrefs[j] == "#contact"))
        && autoplay == None && nextTimerId == old(nextTimerId)
      ensures old(AutoplayOnHome()) ==> AutoplayOnHome()
    {
      FollowLink(href);
      if href == "#contact" {
        assert Router.LinkTarget(href) == "contact" && "#" + "contact" == "#contact";
        ghost var pushed, timer := history, nextTimerId;
        ShowContact();
        if "contact" in elementIds {
          assert pushed == old(history) + ["#contact"] && timer == old(nextTimerId);
          assert history == pushed + ["#contact"];
          assert history == old(history) + ["#contact", "#contact"];
        }
      }
    }

    /** The `popstate` handler: show the page the new fragment names, or `home`. */
    method PopState(hash: string)
      requires Valid()
      modifies this`pageActive, this`currentPage, this`history, this`navActive
      modifies this`autoplay, this`liveIntervals, this`nextTimerId
      ensures Valid()
      ensures PageShown(Router.PageFromHash(hash))
      ensures old(AutoplayOnHome()) ==> AutoplayOnHome()
    {
      ShowPage(Router.PageFromHash(hash));
    }

    // ---------------------------------------------------------------- testimonials

    /** `showNextTestimonial`: without slides nothing happens; otherwise the next slide, the
        first after the last, becomes the only one shown. */
    method ShowNextTestimonial()
      requires Valid()
      modifies this`testimonialIndex, this`testimonialActive
      ensures Valid()
      ensures testimonialCount == 0 ==> testimonialIndex == old(testimonialIndex)
      ensures testimonialCount > 0 ==>
        testimonialIndex == Carousel.NextIndex(old(testimonialIndex), testimonialCount)
    {
      if testimonialCount == 0 {
        return;
      }
      testimonialActive := testimonialActive[testimonialIndex := false];
      testimonialIndex := Carousel.NextIndex(testimonialIndex, testimonialCount);
      testimonialActive := testimonialActive[testimonialIndex := true];
    }

    /** `showPreviousTestimonial`: without slides nothing happens; otherwise the previous
        slide, the last before the first, becomes the only one shown. */
    method ShowPreviousTestimonial()
      requires Valid()
      modifies this`testimonialIndex, this`testimonialActive
      ensures Valid()
      ensures testimonialCount == 0 ==> testimonialIndex == old(testimonialIndex)
      ensures testimonialCount > 0 ==>
        testimonialIndex == Carousel.PrevIndex(old(testimonialIndex), testimonialCount)
    {
      if testimonialCount == 0 {
        return;
      }
      testimonialActive := testimonialActive[testimonialIndex := false];
      testimonialIndex := Carousel.PrevIndex(testimonialIndex, testimonialCount);
      testimonialActive := testimonialActive[testimonialIndex := true];
    }

    /** `startTestimonialAutoplay`: the running interval, if any, is cleared before a new one
        is armed, so exactly one interval is live afterwards. */
    method StartAutoplay()
      requires Valid()
      modifies this`autoplay, this`liveIntervals, this`nextTimerId
      ensures Valid()
      ensures autoplay == Some(old(nextTimerId)) && liveIntervals == {old(nextTimerId)}
      ensures nextTimerId == old(nextTimerId) + 1
    {
      StopAutoplay();
      autoplay := Some(nextTimerId);
      liveIntervals := {nextTimerId};
      nextTimerId := nextTimerId + 1;
    }

    /** `stopTestimonialAutoplay`: clears the running interval, if any, and forgets its
        handle; with no interval running it changes nothing. */
    method StopAutoplay()
      requires Valid()
      modifies this`autoplay, this`liveIntervals
      ensures Valid()
      ensures autoplay == None && liveIntervals == {}
      ensures old(autoplay) == None ==> liveIntervals == old(liveIntervals)
    {
      if autoplay.Some? {
        liveIntervals := liveIntervals - {autoplay.value};
        autoplay := None;
      }
    }

    /** One firing of the live interval `h`: the carousel advances when the current page is
        `home`. Since autoplay runs only on the home page, a live interval always advances it. */
    method AutoplayTick(h: nat)
      requires Valid() && h in liveIntervals
      modifies this`testimonialIndex, this`testimonialActive
      ensures Valid()
      ensures currentPage == "home" && testimonialCount > 0 ==>
        testimonialIndex == Carousel.NextIndex(old(testimonialIndex), testimonialCount)
      ensures currentPage != "home" ==> testimonialIndex == old(testimonialIndex)
      ensures currentPage != "home" ==> testimonialActive == old(testimonialActive)
      ensures AutoplayOnHome() && testimonialCount > 0 ==>
        testimonialIndex == Carousel.NextIndex(old(testimonialIndex), testimonialCount)
    {
      if currentPage == "home" {
        ShowNextTestimonial();
      }
    }

    // ---------------------------------------------------------------- FAQ

    /** `toggleFaqItem` on item `k`: every item closes, and `k` opens when it was closed. */
    method ToggleFaqItem(k: nat)
      requires k < |faqOpen|
      modifies this`faqOpen
      ensures faqOpen == Faq.Toggled(old(faqOpen), k)
      ensures Faq.AtMostOneOpen(faqOpen)
    {
      var wasOpen := faqOpen[k];
      var j := 0;
      while j < |faqOpen|
        invariant 0 <= j <= |faqOpen| && |faqOpen| == |old(faqOpen)|
        invariant forall i :: 0 <= i < j ==> !faqOpen[i]
        modifies this`faqOpen
      {
        faqOpen := faqOpen[j := false];
        j := j + 1;
      }
      if !wasOpen {
        faqOpen := faqOpen[k := true];
      }
    }

    // ---------------------------------------------------------------- modal

    /** `showModal`: opens the modal and locks page scrolling, when there is a modal. */
    method ShowModal()
      requires Valid()
      modifies this`modalHidden, this`isModalOpen, this`bodyScrollLocked
      ensures Valid()
      ensures modalPresent ==> isModalOpen && !modalHidden && bodyScrollLocked
      ensures !modalPresent ==> isModalOpen == old(isModalOpen) && modalHidden == old(modalHidden)
      ensures !modalPresent ==> bodyScrollLocked == old(bodyScrollLocked)
    {
      if modalPresent {
        modalHidden := false;
        isModalOpen := true;
        bodyScrollLocked := true;
      }
    }

    /** `hideModal`: closes the modal and unlocks page scrolling, when there is a modal. A
        click on a close button or on the backdrop runs it directly. */
    method HideModal()
      requires Valid()
      modifies this`modalHidden, this`isModalOpen, this`bodyScrollLocked
      ensures Valid()
      ensures modalPresent ==> !isModalOpen && modalHidden && !bodyScrollLocked
      ensures !modalPresent ==> isModalOpen == old(isModalOpen) && modalHidden == old(modalHidden)
      ensures !modalPresent ==> bodyScrollLocked == old(bodyScrollLocked)
    {
      if modalPresent {
        modalHidden := true;
        isModalOpen := false;
        bodyScrollLocked := false;
      }
    }

    /** The `keydown` handler: Escape closes the modal while it is open; any other key, or
        Escape with the modal closed, changes nothing. */
    method KeyDown(key: string)
      requires Valid()
      modifies this`modalHidden, this`isModalOpen, this`bodyScrollLocked
      ensures Valid()
      ensures key == "Escape" && old(isModalOpen) ==> !isModalOpen && modalHidden && !bodyScrollLocked
      ensures !(key == "Escape" && old(isModalOpen)) ==>
        isModalOpen == old(isModalOpen) && modalHidden == old(modalHidden) && bodyScrollLocked == old(bodyScrollLocked)
    {
      if key == "Escape" && isModalOpen {
        HideModal();
      }
    }

    // ---------------------------------------------------------------- forms

    /** The timer callback of `handleFormSubmission`: the form is reset, its validation marks
        cleared and its button re-enabled, and the success modal opens. */
    method CompleteSubmission(form: Forms.Form)
      requires Valid() && form.Valid() && form.pendingCompletions > 0
      modifies form`values, form`consentChecked, form`marks, form`consentMessageShown
      modifies form`submitDisabled, form`submitLoading, form`pendingCompletions
      modifies this`modalHidden, this`isModalOpen, this`bodyScrollLocked
      ensures Valid() && form.Valid()
      ensures form.consentGroupError == old(form.consentGroupError)
      ensures form.values == Forms.Initials(form.controls) && form.consentChecked == form.consentInitial
      ensures Forms.AllUnmarked(form.marks) && !form.consentMessageShown
      ensures !form.submitDisabled && !form.submitLoading
      ensures form.pendingCompletions == old(form.pendingCompletions) - 1
      ensures isModalOpen == (modalPresent || old(isModalOpen))
      ensures modalPresent ==> isModalOpen && !modalHidden && bodyScrollLocked
      ensures !modalPresent ==> modalHidden == old(modalHidden) && bodyScrollLocked == old(bodyScrollLocked)
    {
      form.Complete();
      ShowModal();
    }
  }

  /** The `forEach` that removes `active` from every element of a list. */
  method Deactivated(active: seq<bool>) returns (r: seq<bool>)
    ensures |r| == |active|
    ensures forall i :: 0 <= i < |r| ==> !r[i]
  {
    r := active;
    var j := 0;
    while j < |r|
      invariant 0 <= j <= |r| && |r| == |active|
      invariant forall i :: 0 <= i < j ==> !r[i]
    {
      r := r[j := false];
      j := j + 1;
    }
  }
}
