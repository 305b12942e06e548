/** The course page: which section is on screen and which lesson modules
    have been completed. Sidebar buttons switch sections; a module's
    completion callback adds that module to the completed set. */
module CoursePage {

  datatype Section = Intro | Patterns | Risk | Timeframes | Entries | Quiz

  /** The sidebar's module list (the introduction is listed separately). */
  const Sections: seq<Section> := [Patterns, Risk, Timeframes, Entries, Quiz]

  /** The module ids that the sidebar lists. */
  function ModuleIds(): (ids: set<Section>)
    ensures |ids| == |Sections| == 5
    ensures Intro !in ids
    ensures forall s :: s in ids <==> s != Intro
  {
    var ids := set s | s in Sections;
    assert ids == {Patterns, Risk, Timeframes, Entries, Quiz};
    assert forall s :: s in ids || s.Intro?;
    assert |{Patterns, Risk, Timeframes, Entries} + {Quiz}| == |{Patterns, Risk, Timeframes, Entries}| + 1;
    ids
  }

  /** A finite subset is no larger than its superset. */
  lemma {:induction false} SubsetSize<T>(a: set<T>, b: set<T>)
    requires a <= b
    ensures |a| <= |b|
    decreases |a|
  {
    if a != {} {
      var x :| x in a;
      SubsetSize(a - {x}, b - {x});
    }
  }

  /** A proper subset is strictly smaller. */
  lemma ProperSubsetSmaller<T>(a: set<T>, b: set<T>)
    requires a <= b && a != b
    ensures |a| < |b|
  {
    assert exists x :: x in b && x !in a;
    var x :| x in b && x !in a;
    SubsetSize(a, b - {x});
  }

  /** The completed set after marking `section`: the counter goes up by one
      unless the section was already marked. */
  function MarkComplete(done: set<Section>, section: Section): (r: set<Section>)
    ensures section in r && done <= r
    ensures |r| == if section in done then |done| else |done| + 1
  {
    done + {section}
  }

  /** Marking adds the section and keeps every earlier member, and nothing else. */
  lemma MarkCompleteGrows(done: set<Section>, section: Section)
    ensures section in MarkComplete(done, section)
    ensures done <= MarkComplete(done, section)
    ensures forall s :: s in MarkComplete(done, section) <==> s in done || s == section
  {
  }

  /** Marking the same section twice is the same as marking it once. */
  lemma MarkCompleteIdempotent(done: set<Section>, section: Section)
    ensures MarkComplete(MarkComplete(done, section), section) == MarkComplete(done, section)
    ensures section in done ==> MarkComplete(done, section) == done
  {
  }

  /** The two state cells of the page. */
  datatype CourseState = CourseState(current: Section, completed: set<Section>)

  const Initial := CourseState(Intro, {})

  /** Only module ids are ever marked, so the "Progress: k/5" counter never exceeds 5. */
  predicate Inv(c: CourseState) {
    c.completed <= ModuleIds()
  }

  /** The progress counter, the size of the completed set. */
  function ProgressCount(c: CourseState): (n: nat)
    requires Inv(c)
    ensures n <= |Sections|
    ensures n == |Sections| <==> c.completed == ModuleIds()
  {
    SubsetSize(c.completed, ModuleIds());
    if c.completed == ModuleIds() then |c.completed|
    else
      ProperSubsetSmaller(c.completed, ModuleIds());
      |c.completed|
  }

  /** A sidebar entry shows the completed badge iff its id is in the set; on
      a valid state only the listed modules, never the introduction, can. */
  predicate ShowsCompleted(c: CourseState, section: Section)
    ensures Inv(c) && ShowsCompleted(c, section) ==> section in Sections && section != Intro
  {
    section in c.completed
  }

  /** A sidebar or "Start Learning" click, or the completion callback of the
      module on screen. Each module is rendered only while it is the current
      section, and its callback marks that module's own id; the introduction
      has no callback. */
  datatype Event = Navigate(target: Section) | ModuleCompleted

  predicate Enabled(c: CourseState, e: Event)
    ensures Enabled(c, e) && e.ModuleCompleted? ==> c.current in Sections
  {
    e.ModuleCompleted? ==> c.current != Intro
  }

  function Step(c: CourseState, e: Event): (t: CourseState)
    ensures c.completed <= t.completed <= c.completed + {c.current}
    ensures t.current == if e.Navigate? then e.target else c.current
  {
    match e
    case Navigate(t) => c.(current := t)
    case ModuleCompleted => c.(completed := MarkComplete(c.completed, c.current))
  }

  /** Navigation moves to its target and leaves the completed set alone; a
      module's callback marks exactly the module on screen. */
  lemma StepEffect(c: CourseState, e: Event)
    requires Enabled(c, e)
    ensures e.Navigate? ==> Step(c, e) == CourseState(e.target, c.completed)
    ensures e.ModuleCompleted? ==>
      Step(c, e).current == c.current && Step(c, e).completed == c.completed + {c.current}
      && Intro !in Step(c, e).completed - c.completed
  {
  }

  /** Badges: navigation changes none; a callback adds the badge of the
      module on screen and no other. */
  lemma BadgesAfterStep(c: CourseState, e: Event, section: Section)
    requires Enabled(c, e)
    ensures e.Navigate? ==> (ShowsCompleted(Step(c, e), section) <==> ShowsCompleted(c, section))
    ensures e.ModuleCompleted? ==>
      (ShowsCompleted(Step(c, e), section) <==> ShowsCompleted(c, section) || section == c.current)
  {
  }

  lemma StepPreservesInv(c: CourseState, e: Event)
    requires Inv(c) && Enabled(c, e)
    ensures Inv(Step(c, e))
  {
  }

  function Run(c: CourseState, events: seq<Event>): CourseState
    decreases |events|
  {
    if events == [] then c else Run(Step(c, events[0]), events[1..])
  }

  predicate ValidRun(c: CourseState, events: seq<Event>)
    decreases |events|
  {
    events == [] || (Enabled(c, events[0]) && ValidRun(Step(c, events[0]), events[1..]))
  }

  /** Over any possible run the invariant holds, the completed set only grows,
      and the introduction is never added to it. */
  lemma {:induction false} RunGrowsCompleted(c: CourseState, events: seq<Event>)
    requires Inv(c) && ValidRun(c, events)
    ensures Inv(Run(c, events))
    ensures c.completed <= Run(c, events).completed
    ensures Intro !in Run(c, events).completed - c.completed
    decreases |events|
  {
    if events != [] {
      StepPreservesInv(c, events[0]);
      RunGrowsCompleted(Step(c, events[0]), events[1..]);
    }
  }

  // ----- The page, with its state cells updated in place -----

  class Course {
    var currentSection: Section
    var completedSections: set<Section>

    function State(): CourseState
      reads this
    {
      CourseState(currentSection, completedSections)
    }

    predicate Valid()
      reads this
    {
      Inv(State())
    }

    constructor ()
      ensures Valid() && State() == Initial
    {
      currentSection, completedSections := Intro, {};
    }

    /** The "Progress: k/5" counter. */
    function Progress(): (n: nat)
      reads this
      requires Valid()
      ensures n <= |Sections|
    {
      ProgressCount(State())
    }

    /** A navigation click: `setCurrentSection(target)`. */
    method Navigate(target: Section)
      requires Valid()
      modifies this
      ensures Valid()
      ensures currentSection == target && completedSections == old(completedSections)
    {
      currentSection := target;
    }

    /** `markComplete`, called only with a module id. */
    method MarkModuleComplete(section: Section)
      requires Valid() && section != Intro
      modifies this
      ensures Valid()
      ensures currentSection == old(currentSection)
      ensures completedSections == MarkComplete(old(completedSections), section)
    {
      completedSections := completedSections + {section};
    }

    /** The callback of the module on screen marks that module. */
    method CompleteCurrentModule()
      requires Valid() && Enabled(State(), ModuleCompleted)
      modifies this
      ensures Valid()
      ensures State() == Step(old(State()), ModuleCompleted)
    {
      MarkModuleComplete(currentSection);
    }
  }
}
