/** Reading a range through the week cache: copies in, copies out, and the same answer as a fresh build. */
module ScheduleService {
  import opened Wrappers
  import opened Store
  import opened Inheritance
  import opened Views
  import BuildDays
  import Text
  import WeekCache

  type Lesson = BuildDays.DayLesson

  /** A day's annotations besides its lessons, read from tables that are not part of this model. */
  datatype Notes = Notes(events: seq<string>, study: Option<string>, constraint: Option<string>)

  // ---------------------------------------------------------------- values

  datatype DayValue = DayValue(day: BuildDays.Day, notes: Notes)

  datatype WeekValue = WeekValue(group: int, start: int, end: int, version: string, days: seq<DayValue>)

  /** Everything a build reads. */
  datatype Data = Data(env: Env, state: State, groups: Groups, notes: (int, int) -> Notes)

  function Annotate(data: Data, group: int, days: seq<BuildDays.Day>): seq<DayValue> {
    seq(|days|, i requires 0 <= i < |days| => DayValue(days[i], data.notes(group, days[i].date)))
  }

  // --------------------------------------------------- answers, fresh and cached

  datatype Key = Key(group: int, week: int, version: string)

  datatype RangeError = GroupRequired | EndBeforeStart | Unbuilt(error: GroupError)

  /** A request for a range, the data it finds, and the version text that data carries. */
  datatype Query = Query(data: Data, version: string, group: int, start: int, end: int) {
    function CacheKey(): Key {
      Key(group, start, version)
    }

    /** Monday to Saturday of one week. */
    predicate Canonical() {
      start == Monday(start) && end == start + 5
    }

    ghost predicate WellFormed() {
      Store.WellFormed(data.env, data.state)
    }
  }

  /** What a fresh build answers. */
  ghost function Fresh(q: Query): Result<WeekValue, RangeError>
    requires q.WellFormed()
  {
    if q.group <= 0 then Result.Failure(RangeError.GroupRequired)
    else if q.end < q.start then Result.Failure(RangeError.EndBeforeStart)
    else
      match BuildDays.Schedule(q.data.env, q.data.state, q.data.groups, q.group, q.start, q.end)
      case Failure(e) => Result.Failure(Unbuilt(e))
      case Success(days) => Success(WeekValue(q.group, q.start, q.end, q.version, Annotate(q.data, q.group, days)))
  }

  /** Why a fresh build gives no answer; only the chain of groups can fail otherwise. */
  lemma {:induction false} FreshFails(q: Query)
    requires q.WellFormed()
    ensures q.group <= 0 ==> Fresh(q) == Result.Failure(RangeError.GroupRequired)
    ensures q.group > 0 && q.end < q.start ==> Fresh(q) == Result.Failure(RangeError.EndBeforeStart)
    ensures q.group > 0 && q.start <= q.end && Chain(q.data.groups, q.group).Failure? ==>
      Fresh(q) == Result.Failure(Unbuilt(Chain(q.data.groups, q.group).error))
  {
  }

  /** The i-th day of the answer, with the lessons its day shows over the chain and its own notes. */
  ghost predicate DayTells(q: Query, chain: seq<int>, i: nat, v: DayValue)
    requires q.WellFormed()
  {
    && v.day.date == q.start + i
    && v.day.lessons == BuildDays.DayLessons(q.data.env, q.data.state, chain, q.start + i)
    && v.notes == q.data.notes(q.group, q.start + i)
  }

  lemma {:induction false} AnnotatedTells(q: Query, chain: seq<int>)
    requires q.WellFormed() && q.start <= q.end
    ensures var built := BuildDays.Days(q.data.env, q.data.state, chain, q.start, q.end);
      && |Annotate(q.data, q.group, built)| == q.end - q.start + 1
      && forall i: nat | i <= q.end - q.start :: DayTells(q, chain, i, Annotate(q.data, q.group, built)[i])
  {
    BuildDays.OnePerDay(q.data.env, q.data.state, chain, q.start, q.end);
    forall i: nat | i <= q.end - q.start
      ensures var built := BuildDays.Days(q.data.env, q.data.state, chain, q.start, q.end);
        DayTells(q, chain, i, Annotate(q.data, q.group, built)[i])
    {
      BuildDays.DayInRange(q.data.env, q.data.state, chain, q.start, q.end, q.start + i);
    }
  }

  /** A fresh answer holds what was asked for, day after day from the first to the last. */
  lemma {:induction false} FreshTells(q: Query)
    requires q.WellFormed() && q.group > 0 && q.start <= q.end && Chain(q.data.groups, q.group).Success?
    ensures Fresh(q).Success?
    ensures var week := Fresh(q).value;
      && week.group == q.group && week.start == q.start && week.end == q.end && week.version == q.version
      && |week.days| == q.end - q.start + 1
      && forall i: nat | i <= q.end - q.start :: DayTells(q, Chain(q.data.groups, q.group).value, i, week.days[i])
  {
    AnnotatedTells(q, Chain(q.data.groups, q.group).value);
    assert q.group in q.data.groups;
  }

  type Weeks = WeekCache.Shelf<Key, WeekValue>

  ghost predicate Hit(c: Weeks, q: Query) {
    q.group > 0 && q.Canonical() && q.CacheKey() in c.items
  }

  ghost function Answer(c: Weeks, q: Query): Result<WeekValue, RangeError>
    requires q.WellFormed()
  {
    if Hit(c, q) then Success(c.items[q.CacheKey()]) else Fresh(q)
  }

  /** The cache afterwards: a canonical week built afresh is stored. */
  ghost function After(c: Weeks, q: Query, max: nat): Weeks
    requires q.WellFormed()
  {
    if q.Canonical() && !Hit(c, q) && Fresh(q).Success? then WeekCache.Put(c, q.CacheKey(), Fresh(q).value, max) else c
  }

  ghost predicate AllWellFormed(qs: seq<Query>) {
    forall q | q in qs :: q.WellFormed()
  }

  ghost function Serve(qs: seq<Query>, max: nat): Weeks
    requires AllWellFormed(qs)
  {
    if qs == [] then WeekCache.Shelf(map[], [])
    else
      assert qs[|qs| - 1] in qs && forall q | q in qs[..|qs| - 1] :: q in qs;
      After(Serve(qs[..|qs| - 1], max), qs[|qs| - 1], max)
  }

  /** Whatever the cache holds is what a fresh build answered to an earlier query with the same key. */
  lemma {:induction false} HeldWasBuilt(qs: seq<Query>, max: nat, k: Key) returns (q: Query)
    requires AllWellFormed(qs) && k in Serve(qs, max).items
    ensures q in qs && q.Canonical() && q.group > 0 && q.CacheKey() == k
    ensures Fresh(q) == Success(Serve(qs, max).items[k])
  {
    var before, last := qs[..|qs| - 1], qs[|qs| - 1];
    assert last in qs && forall p | p in before :: p in qs;
    var c := Serve(before, max);
    if After(c, last, max) != c && k == last.CacheKey() {
      q := last;
      WeekCache.PutEntries(c, k, Fresh(last).value, max, k);
    } else {
      if After(c, last, max) != c {
        WeekCache.PutEntries(c, last.CacheKey(), Fresh(last).value, max, k);
      }
      q := HeldWasBuilt(before, max, k);
    }
  }

  ghost predicate VersionsTellData(qs: seq<Query>) {
    forall p, q | p in qs && q in qs && p.version == q.version :: p.data == q.data
  }

  /**
   If equal version texts imply equal data, then after any run of queries the next one is answered
   as a fresh build would.
   */
  lemma {:induction false} CacheIsTransparent(qs: seq<Query>, q: Query, max: nat)
    requires AllWellFormed(qs) && q.WellFormed() && VersionsTellData(qs + [q])
    ensures Answer(Serve(qs, max), q) == Fresh(q)
  {
    if Hit(Serve(qs, max), q) {
      var p := HeldWasBuilt(qs, max, q.CacheKey());
      assert p in qs + [q] && q in qs + [q];
      assert p.data == q.data && p == q;
    }
  }

  /** A week once built is answered again, whatever a fresh build would answer by then. */
  lemma {:induction false} SameVersionAnswersStale(p: Query, q: Query, max: nat)
    requires p.WellFormed() && q.WellFormed() && p.group > 0
    requires p.Canonical() && q.Canonical() && p.CacheKey() == q.CacheKey()
    requires Fresh(p).Success?
    ensures Answer(Serve([p], max), q) == Fresh(p)
  {
  }

  ghost predicate Over(qs: seq<Query>, all: seq<Query>) {
    forall q | q in qs :: q in all
  }

  /** Whatever is asked, in whatever order, the answer is that of a fresh build. */
  ghost predicate AlwaysFresh(all: seq<Query>, max: nat)
    requires AllWellFormed(all)
  {
    forall qs, q | Over(qs, all) && q in all :: Answer(Serve(qs, max), q) == Fresh(q)
  }

  predicate SameWeek(p: Query, q: Query) {
    p.group > 0 && p.Canonical() && q.Canonical() && p.CacheKey() == q.CacheKey()
  }

  /** Queries for one canonical week under one version text are built alike, once one of them can be built. */
  ghost predicate SameKeySameBuild(all: seq<Query>)
    requires AllWellFormed(all)
  {
    forall p, q | p in all && q in all && SameWeek(p, q) && Fresh(p).Success? :: Fresh(p) == Fresh(q)
  }

  /** The cache is transparent to some queries if and only if those for one key are built alike. */
  lemma {:induction false} TransparentIff(all: seq<Query>, max: nat)
    requires AllWellFormed(all)
    ensures AlwaysFresh(all, max) <==> SameKeySameBuild(all)
  {
    if SameKeySameBuild(all) {
      forall qs, q | Over(qs, all) && q in all
        ensures Answer(Serve(qs, max), q) == Fresh(q)
      {
        if Hit(Serve(qs, max), q) {
          var p := HeldWasBuilt(qs, max, q.CacheKey());
          assert p in all && SameWeek(p, q);
        }
      }
    } else {
      var p, q :| p in all && q in all && SameWeek(p, q) && Fresh(p).Success? && Fresh(p) != Fresh(q);
      assert Over([p], all);
      SameVersionAnswersStale(p, q, max);
    }
  }

  /** One lesson on day 7 for group 1, or none. */
  function OneLesson(some: bool): State {
    var lesson := Lesson(1, 7, 1, None, None, None, Offline, Published, Manual, None, 1);
    State(if some then map[1 := lesson] else map[], map[], [], 2)
  }

  function AskWeek(some: bool): Query {
    var env := Env(Text.Alphabet(c => false, c => c), [], map[], map[], [], map[], false);
    var groups := map[1 := Group("g", 1, None, None, None, None)];
    Query(Data(env, OneLesson(some), groups, (group, date) => Notes([], None, None)), "v", 1, 7, 12)
  }

  /** A canonical week that can be built, with these lessons on its first day. */
  ghost predicate StartsWith(q: Query, lessons: seq<Lesson>) {
    && q.WellFormed() && q.Canonical() && q.group > 0
    && Fresh(q).Success? && |Fresh(q).value.days| > 0 && Fresh(q).value.days[0].day.lessons == lessons
  }

  ghost function FirstDay(some: bool): seq<Lesson> {
    BuildDays.DayLessons(AskWeek(some).data.env, OneLesson(some), [1], 7)
  }

  lemma {:induction false} WeekOf(some: bool)
    ensures StartsWith(AskWeek(some), FirstDay(some))
  {
    var q := AskWeek(some);
    assert Chain(q.data.groups, 1) == Success([1]);
    FreshTells(q);
    assert DayTells(q, [1], 0, Fresh(q).value.days[0]);
  }

  lemma {:induction false} LessonShown()
    ensures FirstDay(true) != []
  {
    var env, s, key := AskWeek(true).data.env, OneLesson(true), BuildDays.Key(1, 0);
    assert Listed(s, 1, 1, 7, 7) && BuildDays.KeyOf(ViewOf(env, s, 1)) == key;
    assert ViewOf(env, s, 1) in BuildDays.HoldersAt(env, s, [1][0], 7, key);
    var v := BuildDays.NearestGroupWins(env, s, [1], 7, 0, key);
  }

  lemma {:induction false} NoLessonShown()
    ensures FirstDay(false) == []
  {
    var env, s := AskWeek(false).data.env, OneLesson(false);
    BuildDays.DayLessonsSorted(env, s, [1], 7);
    assert BuildDays.ShownLessons(env, s, [1], 7) == {};
  }

  lemma {:induction false} OtherWeekAnswered(p: Query, q: Query, lessons: seq<Lesson>, max: nat)
    requires StartsWith(p, lessons) && StartsWith(q, []) && lessons != [] && p.CacheKey() == q.CacheKey()
    ensures Answer(Serve([p], max), q) != Fresh(q)
  {
    SameVersionAnswersStale(p, q, max);
  }

  /**
   Such a case: the lesson is removed within the second the version text tells apart. The second
   query is answered with the lesson still there.
   */
  lemma {:induction false} RemovedLessonStillShown(max: nat)
    ensures var p, q := AskWeek(true), AskWeek(false);
      && p.WellFormed() && q.WellFormed() && p.version == q.version
      && Answer(Serve([p], max), q) != Fresh(q)
  {
    WeekOf(true);
    WeekOf(false);
    LessonShown();
    NoLessonShown();
    OtherWeekAnswered(AskWeek(true), AskWeek(false), FirstDay(true), max);
  }

  // --------------------------------------------------------------- responses

  class Box {
    var text: string

    constructor (text: string)
      ensures this.text == text
    {
      this.text := text;
    }
  }

  /** A day as it is handed out: its slices and pointers can be altered by whoever holds them. */
  datatype Day = Day(date: int, lessons: array<Lesson>, events: array<string>, study: Box?, constraint: Box?)

  datatype Response = Response(group: int, start: int, end: int, version: string, days: array<Day>)

  ghost function BoxParts(b: Box?): set<object> {
    if b == null then {} else {b}
  }

  ghost function DayParts(d: Day): set<object> {
    var slices: set<object> := {d.lessons, d.events};
    slices + BoxParts(d.study) + BoxParts(d.constraint)
  }

  ghost function AllParts(days: seq<Day>): set<object> {
    if days == [] then {} else AllParts(days[..|days| - 1]) + DayParts(days[|days| - 1])
  }

  ghost function Parts(r: Response): set<object>
    reads r.days
  {
    {r.days} + AllParts(r.days[..])
  }

  lemma {:induction false} PartsOfDay(days: seq<Day>, i: nat)
    requires i < |days|
    ensures DayParts(days[i]) <= AllParts(days)
  {
    if i < |days| - 1 {
      PartsOfDay(days[..|days| - 1], i);
    }
  }

  lemma {:induction false} PartsAreOfDays(days: seq<Day>, s: set<object>)
    requires forall i | 0 <= i < |days| :: DayParts(days[i]) <= s
    ensures AllParts(days) <= s
  {
    if days != [] {
      PartsAreOfDays(days[..|days| - 1], s);
    }
  }

  ghost predicate BoxShows(b: Box?, text: Option<string>)
    reads b
  {
    if b == null then text.None? else text == Some(b.text)
  }

  ghost predicate DayShows(d: Day, v: DayValue)
    reads DayParts(d)
  {
    && d.date == v.day.date && d.lessons[..] == v.day.lessons && d.events[..] == v.notes.events
    && BoxShows(d.study, v.notes.study) && BoxShows(d.constraint, v.notes.constraint)
  }

  ghost predicate Shows(r: Response, v: WeekValue)
    reads r.days, Parts(r)
  {
    && r.group == v.group && r.start == v.start && r.end == v.end && r.version == v.version
    && r.days.Length == |v.days|
    && forall i | 0 <= i < r.days.Length :: (PartsOfDay(r.days[..], i); DayShows(r.days[i], v.days[i]))
  }

  /** A response shows one week only: everything a week holds can be read off it. */
  lemma {:induction false} ShowsOne(r: Response, v: WeekValue, w: WeekValue)
    requires Shows(r, v) && Shows(r, w)
    ensures v == w
  {
    forall i | 0 <= i < |v.days|
      ensures v.days[i] == w.days[i]
    {
      PartsOfDay(r.days[..], i);
      assert DayShows(r.days[i], v.days[i]) && DayShows(r.days[i], w.days[i]);
    }
    assert v.days == w.days;
  }

  /** The response is made of the given objects and shows the value. */
  ghost predicate Kept(r: Response, v: WeekValue, parts: set<object>)
    reads parts
  {
    r.days in parts && Parts(r) <= parts && Shows(r, v)
  }

  // ---------------------------------------------------------------- cloning

  method CloneBox(b: Box?, ghost text: Option<string>) returns (out: Box?)
    requires BoxShows(b, text)
    ensures BoxShows(out, text) && (out != null ==> fresh(out))
  {
    if b == null {
      return null;
    }
    out := new Box(b.text);
  }

  method CloneDay(d: Day, ghost v: DayValue) returns (out: Day)
    requires DayShows(d, v)
    ensures DayShows(out, v) && fresh(DayParts(out))
  {
    var study := CloneBox(d.study, v.notes.study);
    var constraint := CloneBox(d.constraint, v.notes.constraint);
    var events := new string[d.events.Length](i requires 0 <= i < d.events.Length reads d.events => d.events[i]);
    var lessons := new Lesson[d.lessons.Length](i requires 0 <= i < d.lessons.Length reads d.lessons => d.lessons[i]);
    assert events[..] == d.events[..] && lessons[..] == d.lessons[..];
    out := Day(d.date, lessons, events, study, constraint);
  }

  method CloneResponse(r: Response, ghost v: WeekValue) returns (out: Response, ghost parts: set<object>)
    requires Shows(r, v)
    ensures Kept(out, v, parts) && fresh(parts)
  {
    var days := new Day[r.days.Length](i requires 0 <= i < r.days.Length reads r.days => r.days[i]);
    ghost var made: set<object> := {};
    for i := 0 to r.days.Length
      invariant fresh(made) && days !in made
      invariant forall j | i <= j < r.days.Length :: days[j] == r.days[j]
      invariant forall j | 0 <= j < i :: DayParts(days[j]) <= made && DayShows(days[j], v.days[j])
    {
      var day := CloneDay(r.days[i], v.days[i]);
      days[i] := day;
      made := made + DayParts(day);
    }
    PartsAreOfDays(days[..], made);
    out := r.(days := days);
    parts := made + {days};
  }

  // ----------------------------------------------------------------- building

  /** Lays a built day out in slices of its own. */
  method EmitDay(d: BuildDays.Day, notes: Notes) returns (out: Day)
    ensures DayShows(out, DayValue(d, notes)) && fresh(DayParts(out))
  {
    var study, constraint := null, null;
    if notes.study.Some? {
      study := new Box(notes.study.value);
    }
    if notes.constraint.Some? {
      constraint := new Box(notes.constraint.value);
    }
    var events := new string[|notes.events|](i requires 0 <= i < |notes.events| => notes.events[i]);
    var lessons := new Lesson[|d.lessons|](i requires 0 <= i < |d.lessons| => d.lessons[i]);
    assert events[..] == notes.events && lessons[..] == d.lessons;
    out := Day(d.date, lessons, events, study, constraint);
  }

  method EmitWeek(data: Data, version: string, group: int, start: int, end: int, built: seq<BuildDays.Day>)
    returns (r: Response, ghost parts: set<object>)
    ensures Kept(r, WeekValue(group, start, end, version, Annotate(data, group, built)), parts) && fresh(parts)
  {
    ghost var values := Annotate(data, group, built);
    var emitted: seq<Day> := [];
    ghost var made: set<object> := {};
    for i := 0 to |built|
      invariant |emitted| == i && fresh(made)
      invariant forall j | 0 <= j < i :: DayParts(emitted[j]) <= made && DayShows(emitted[j], values[j])
    {
      var day := EmitDay(built[i], data.notes(group, built[i].date));
      assert values[i] == DayValue(built[i], data.notes(group, built[i].date));
      emitted := emitted + [day];
      made := made + DayParts(day);
    }
    PartsAreOfDays(emitted, made);
    var days := new Day[|emitted|](i requires 0 <= i < |emitted| => emitted[i]);
    assert days[..] == emitted;
    r := Response(group, start, end, version, days);
    parts := made + {days};
  }

  // ------------------------------------------------------------------ service

  /** Cached responses, what they show, and the objects they are made of. */
  type Stock = (map<Key, Response>, map<Key, WeekValue>, set<object>)

  ghost predicate AllKept(stock: Stock)
    reads stock.2
  {
    stock.1.Keys == stock.0.Keys && forall k | k in stock.1 :: Kept(stock.0[k], stock.1[k], stock.2)
  }

  /** What is kept stays so as long as its objects are left alone. */
  twostate lemma StillKept(stock: Stock)
    requires old(AllKept(stock))
    requires unchanged(stock.2)
    ensures AllKept(stock)
  {
  }

  twostate lemma StillShows(kept: (Response, WeekValue, set<object>))
    requires old(Kept(kept.0, kept.1, kept.2))
    requires unchanged(kept.2)
    ensures Kept(kept.0, kept.1, kept.2)
  {
  }

  lemma {:induction false} StoredIsKept(
    c: WeekCache.Shelf<Key, Response>, d: WeekCache.Shelf<Key, WeekValue>, held: set<object>,
    k: Key, r: Response, v: WeekValue, parts: set<object>, max: nat)
    returns (after: Stock)
    requires AllKept((c.items, d.items, held)) && c.order == d.order && Kept(r, v, parts)
    ensures AllKept(after)
    ensures after.0 == WeekCache.Put(c, k, r, max).items && after.2 == held + parts
    ensures WeekCache.Put(d, k, v, max) == WeekCache.Shelf(after.1, WeekCache.Put(c, k, r, max).order)
  {
    after := (WeekCache.Put(c, k, r, max).items, WeekCache.Put(d, k, v, max).items, held + parts);
    WeekCache.PutSameKeys(c, d, k, r, v, max);
    var items, shown := WeekCache.Put(c, k, r, max).items, WeekCache.Put(d, k, v, max).items;
    forall x | x in shown
      ensures Kept(items[x], shown[x], held + parts)
    {
      WeekCache.PutEntries(c, k, r, max, x);
      WeekCache.PutEntries(d, k, v, max, x);
    }
  }

  class Service {
    const weekCache: WeekCache.Cache<Key, Response>

    /** What the cached responses show, and all the objects they are made of. */
    ghost var shown: map<Key, WeekValue>
    ghost var held: set<object>

    /** All the objects ever handed out. */
    ghost var handed: set<object>

    ghost predicate Valid()
      reads this, weekCache, held
    {
      && weekCache.Valid()
      && weekCache !in held + handed && this !in held + handed
      && handed !! held
      && AllKept((weekCache.items, shown, held))
    }

    /** The cache as a value. */
    ghost function Contents(): Weeks
      reads this, weekCache
    {
      WeekCache.Shelf(shown, weekCache.order)
    }

    constructor ()
      ensures Valid() && fresh(weekCache) && Contents() == WeekCache.Shelf(map[], []) && handed == {}
      ensures weekCache.maxEntries == 256
    {
      weekCache := new WeekCache.Cache(256);
      shown, held, handed := map[], {}, {};
    }

    /** Stores a response that nothing else refers to. */
    method Store(k: Key, r: Response, ghost v: WeekValue, ghost parts: set<object>)
      requires Valid()
      requires Kept(r, v, parts) && this !in parts && weekCache !in parts && parts !! handed
      modifies this, weekCache
      ensures Valid()
      ensures held == old(held) + parts && handed == old(handed)
      ensures Contents() == WeekCache.Put(old(Contents()), k, v, weekCache.maxEntries)
    {
      ghost var after := StoredIsKept(weekCache.Contents(), Contents(), held, k, r, v, parts, weekCache.maxEntries);
      Remember(k, r, after);
      StillKept(after);
    }

    method Remember(k: Key, r: Response, ghost after: Stock)
      requires weekCache.Valid()
      modifies this, weekCache
      ensures weekCache.Valid()
      ensures weekCache.Contents() == WeekCache.Put(old(weekCache.Contents()), k, r, weekCache.maxEntries)
      ensures shown == after.1 && held == after.2 && handed == old(handed)
    {
      weekCache.Set(k, r);
      shown, held := after.1, after.2;
    }

    /** A copy of the cached response, if there is one. */
    method Lookup(k: Key) returns (hit: Option<Response>, ghost parts: set<object>)
      requires Valid()
      ensures hit.Some? <==> k in shown
      ensures hit.Some? ==> Kept(hit.value, shown[k], parts)
      ensures fresh(parts)
    {
      parts := {};
      var cached := weekCache.Get(k);
      if cached.None? {
        return None, parts;
      }
      assert Kept(cached.value, shown[k], held);
      var clone;
      clone, parts := CloneResponse(cached.value, shown[k]);
      return Some(clone), parts;
    }

    /** Stores a copy of the response. */
    method Keep(k: Key, r: Response, ghost v: WeekValue, ghost parts: set<object>)
      requires Valid()
      requires Kept(r, v, parts) && this !in parts && weekCache !in parts && parts !! held
      modifies this, weekCache
      ensures Valid()
      ensures Contents() == WeekCache.Put(old(Contents()), k, v, weekCache.maxEntries)
      ensures Kept(r, v, parts)
      ensures parts !! held && handed == old(handed)
      ensures forall o | o in held && o !in old(held) :: fresh(o)
    {
      var clone;
      ghost var made;
      clone, made := CloneResponse(r, v);
      Store(k, clone, v, made);
      StillShows((r, v, parts));
    }

    ghost method HandOut(parts: set<object>)
      requires Valid() && parts !! held && this !in parts && weekCache !in parts
      modifies this`handed
      ensures Valid() && handed == old(handed) + parts && Contents() == old(Contents())
    {
      ghost var stock := (weekCache.items, shown, held);
      handed := handed + parts;
      StillKept(stock);
    }

    /** Answers from the cache or by a build. The response is all new, and so is what the cache takes on. */
    method Respond(q: Query, db: Tables) returns (r: Result<Response, RangeError>, ghost parts: set<object>)
      requires Valid()
      requires q.WellFormed() && q.data.state == db.Snapshot()
      modifies this, weekCache
      ensures Valid() && handed == old(handed)
      ensures Contents() == After(old(Contents()), q, weekCache.maxEntries)
      ensures Answers(Answer(old(Contents()), q), r, parts)
      ensures fresh(parts) && parts !! held
      ensures forall o | o in held && o !in old(held) :: fresh(o)
    {
      parts := {};
      if q.group <= 0 {
        return Result.Failure(RangeError.GroupRequired), parts;
      }
      if q.end < q.start {
        return Result.Failure(RangeError.EndBeforeStart), parts;
      }
      if q.Canonical() {
        var hit;
        hit, parts := Lookup(q.CacheKey());
        if hit.Some? {
          return Success(hit.value), parts;
        }
      }
      ghost var v;
      r, v, parts := BuildAnswer(q, db);
      if r.Success? && q.Canonical() {
        Keep(q.CacheKey(), r.value, v, parts);
      }
    }

    /** The cache shares nothing with the response handed out now, nor with any handed out before. */
    method GetRange(q: Query, db: Tables) returns (r: Result<Response, RangeError>, ghost parts: set<object>)
      requires Valid()
      requires q.WellFormed() && q.data.state == db.Snapshot()
      modifies this, weekCache
      ensures Valid()
      ensures Contents() == After(old(Contents()), q, weekCache.maxEntries)
      ensures Answers(Answer(old(Contents()), q), r, parts)
      ensures fresh(parts) && forall o | o in held && o !in old(held) :: fresh(o)
      ensures handed == old(handed) + parts && handed !! held
    {
      r, parts := Respond(q, db);
      HandOut(parts);
    }
  }

  method BuildAnswer(
    q: Query, db: Tables) returns (r: Result<Response, RangeError>, ghost v: WeekValue, ghost parts: set<object>)
    requires q.WellFormed() && q.data.state == db.Snapshot()
    requires q.group > 0 && q.start <= q.end
    ensures Answers(Fresh(q), r, parts)
    ensures r.Success? ==> Fresh(q) == Success(v) && Kept(r.value, v, parts)
    ensures fresh(parts)
  {
    v, parts := WeekValue(q.group, q.start, q.end, q.version, []), {};
    var built := BuildDays.Build(q.data.env, db, q.data.groups, q.group, q.start, q.end);
    if built.Failure? {
      return Result.Failure(Unbuilt(built.error)), v, parts;
    }
    v := v.(days := Annotate(q.data, q.group, built.value));
    var response;
    response, parts := EmitWeek(q.data, q.version, q.group, q.start, q.end, built.value);
    r := Success(response);
  }

  /** The response shows the week and is made of the given objects, or the error is passed on. */
  ghost predicate Answers(answer: Result<WeekValue, RangeError>, r: Result<Response, RangeError>, parts: set<object>)
    reads parts
  {
    match answer
    case Success(v) => r.Success? && Kept(r.value, v, parts)
    case Failure(e) => r == Result.Failure(e)
  }

  /** Altering anything outside the cached objects, such as a returned response, leaves the cache as it was. */
  twostate lemma AlteringLeavesCache(s: Service)
    requires old(s.Valid())
    requires unchanged(s) && unchanged(s.weekCache) && unchanged(old(s.held))
    ensures s.Valid() && s.Contents() == old(s.Contents())
  {
    StillKept((s.weekCache.items, s.shown, s.held));
  }

  /** Altering whatever this call or any earlier one handed out leaves the cache as it was. */
  twostate lemma AlteringHandedOut(s: Service)
    requires old(s.Valid())
    requires forall o: object | old(allocated(o)) && o !in old(s.handed) :: unchanged(o)
    ensures s.Valid() && s.Contents() == old(s.Contents())
  {
    AlteringLeavesCache(s);
  }

  // ------------------------------------------------------------ careless callers

  /** The lesson slices of a response. */
  method Slices(r: Response, ghost parts: set<object>) returns (slices: seq<array<Lesson>>)
    requires r.days in parts && Parts(r) <= parts
    ensures |slices| == r.days.Length && forall i | 0 <= i < |slices| :: slices[i] == r.days[i].lessons
    ensures forall a | a in slices :: a in parts
  {
    slices := [];
    for i := 0 to r.days.Length
      invariant |slices| == i && forall k | 0 <= k < i :: slices[k] == r.days[k].lessons
      invariant forall a | a in slices :: a in parts
    {
      PartsOfDay(r.days[..], i);
      slices := slices + [r.days[i].lessons];
    }
  }

  method Overwrite(slices: seq<array<Lesson>>, l: Lesson, ghost parts: set<object>)
    requires forall a | a in slices :: a in parts
    modifies parts
    ensures forall a, j | a in slices && 0 <= j < a.Length :: a[j] == l
  {
    for k := 0 to |slices|
      invariant forall a, j | a in slices[..k] && 0 <= j < a.Length :: a[j] == l
    {
      var slice := slices[k];
      assert slice in slices;
      for j := 0 to slice.Length
        invariant forall a, i | a in slices[..k] && 0 <= i < a.Length :: a[i] == l
        invariant forall i | 0 <= i < j :: slice[i] == l
      {
        slice[j] := l;
      }
      assert slices[..k + 1] == slices[..k] + [slice];
    }
    assert slices[..|slices|] == slices;
  }

  method Rewrite(svc: Service, slices: seq<array<Lesson>>, l: Lesson)
    requires svc.Valid() && forall a | a in slices :: a in svc.handed
    modifies svc.handed
    ensures svc.Valid() && svc.Contents() == old(svc.Contents())
    ensures forall a, j | a in slices && 0 <= j < a.Length :: a[j] == l
  {
    Overwrite(slices, l, svc.handed);
    AlteringLeavesCache(svc);
  }

  /** Reads, and then overwrites the lessons handed out now and before. */
  method ReadOnce(
    svc: Service, q: Query, db: Tables, slices: seq<array<Lesson>>, l: Lesson) returns (more: seq<array<Lesson>>)
    requires svc.Valid() && forall a | a in slices :: a in svc.handed
    requires q.WellFormed() && q.data.state == db.Snapshot()
    modifies svc, svc.weekCache, svc.handed
    ensures svc.Valid() && svc.Contents() == After(old(svc.Contents()), q, svc.weekCache.maxEntries)
    ensures forall o | o in svc.handed && o !in old(svc.handed) :: fresh(o)
    ensures slices <= more && forall a | a in more :: a in svc.handed
    ensures forall a, j | a in more && 0 <= j < a.Length :: a[j] == l
  {
    var r;
    ghost var parts;
    r, parts := svc.GetRange(q, db);
    more := slices;
    if r.Success? {
      var found := Slices(r.value, parts);
      more := slices + found;
    }
    Rewrite(svc, more, l);
  }

  lemma {:induction false} ServeMore(qs: seq<Query>, n: nat, max: nat)
    requires AllWellFormed(qs) && n < |qs|
    ensures AllWellFormed(qs[..n]) && AllWellFormed(qs[..n + 1]) && qs[n].WellFormed()
    ensures Serve(qs[..n + 1], max) == After(Serve(qs[..n], max), qs[n], max)
  {
    assert qs[..n + 1][..n] == qs[..n] && qs[n] in qs;
  }

  /** After every read all lessons handed out so far are overwritten, and the cache holds what it would without that. */
  method ReadAndOverwrite(qs: seq<Query>, dbs: seq<Tables>, l: Lesson)
    returns (svc: Service, slices: seq<array<Lesson>>)
    requires |qs| == |dbs| && AllWellFormed(qs)
    requires forall i | 0 <= i < |qs| :: qs[i].data.state == dbs[i].Snapshot()
    ensures fresh(svc) && fresh(svc.weekCache) && fresh(svc.handed)
    ensures svc.Valid() && svc.Contents() == Serve(qs, svc.weekCache.maxEntries)
    ensures forall a | a in slices :: a in svc.handed
    decreases |qs|
  {
    if qs == [] {
      svc := new Service();
      return svc, [];
    }
    var n := |qs| - 1;
    ServeMore(qs, n, 0);
    svc, slices := ReadAndOverwrite(qs[..n], dbs[..n], l);
    ServeMore(qs, n, svc.weekCache.maxEntries);
    assert qs[..n + 1] == qs;
    slices := ReadOnce(svc, qs[n], dbs[n], slices, l);
  }
}
