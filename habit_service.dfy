/**
 * The habit store (`src/services/habit.service.ts`): a relational table of
 * habits keyed by id, every access scoped to the authenticated owner.
 *
 * Each operation of the service is a method of `HabitStore`. The database
 * call that can fail is represented by the parameter `fault`: `Some(detail)`
 * when the driver throws on this call (the table is then unchanged), `None`
 * when it succeeds. Generated ids and the clock are parameters too.
 */
module HabitService {
  import opened Common
  import opened Text
  import HabitModel

  type UserId = string
  type HabitId = string
  type Frequency = HabitModel.Frequency

  const NAME_INVALID: string := "Nome deve ter pelo menos 2 caracteres"
  const NOT_FOUND: string := "Hábito não encontrado"
  const FORBIDDEN: string := "Você não tem permissão para acessar este recurso"
  const CREATED: string := "Hábito criado com sucesso"
  const UPDATED: string := "Hábito atualizado com sucesso"
  const DELETED: string := "Hábito deletado com sucesso"
  const CREATE_FAILED: string := "Erro ao criar hábito"
  const LIST_FAILED: string := "Erro ao buscar hábitos"
  const FETCH_FAILED: string := "Erro ao buscar hábito"
  const UPDATE_FAILED: string := "Erro ao atualizar hábito"
  const DELETE_FAILED: string := "Erro ao deletar hábito"

  /** What the service throws; `Internal` is a plain `Error` (the driver's, or the generic replacement). */
  datatype HabitError =
    | ValidationError(message: string)
    | HabitNotFound
    | Forbidden
    | Internal(message: string)
  {
    /** The error's `name` property, which the catch blocks and the controller test. */
    function Name(): string {
      match this
      case ValidationError(_) => "ValidationError"
      case HabitNotFound => "HabitNotFoundError"
      case Forbidden => "ForbiddenAccessError"
      case Internal(_) => "Error"
    }

    /** The error's `message` property. */
    function Message(): string {
      match this
      case ValidationError(m) => m
      case HabitNotFound => NOT_FOUND
      case Forbidden => FORBIDDEN
      case Internal(m) => m
    }
  }

  /** The names each operation's catch block lets through unchanged. */
  const CREATE_PASSES: set<string> := {"ValidationError"}
  const LIST_PASSES: set<string> := {}
  const LOOKUP_PASSES: set<string> := {"HabitNotFoundError", "ForbiddenAccessError"}
  const UPDATE_PASSES: set<string> := {"ValidationError", "HabitNotFoundError", "ForbiddenAccessError"}

  /** A catch block: rethrow a listed error, replace anything else by a generic error. */
  function Rethrow(e: HabitError, passes: set<string>, generic: string): (r: HabitError)
    ensures r == e || r == Internal(generic)
    ensures e.Name() in passes ==> r == e
    ensures e.Name() !in passes ==> r == Internal(generic)
    ensures r.Internal? && "Error" !in passes ==> r.message == generic
  {
    if e.Name() in passes then e else Internal(generic)
  }

  /** Whatever a failing driver reports, the caller sees only the operation's generic message. */
  lemma DriverDetailNeverEscapes(detail: string, other: string)
    ensures Rethrow(Internal(detail), CREATE_PASSES, CREATE_FAILED) == Rethrow(Internal(other), CREATE_PASSES, CREATE_FAILED)
    ensures Rethrow(Internal(detail), LIST_PASSES, LIST_FAILED) == Internal(LIST_FAILED)
    ensures Rethrow(Internal(detail), LOOKUP_PASSES, FETCH_FAILED) == Internal(FETCH_FAILED)
    ensures Rethrow(Internal(detail), UPDATE_PASSES, UPDATE_FAILED) == Internal(UPDATE_FAILED)
    ensures Rethrow(Internal(detail), LOOKUP_PASSES, DELETE_FAILED) == Internal(DELETE_FAILED)
  {
  }

  /** A stored habit row. */
  datatype Habit = Habit(
    id: HabitId,
    name: string,
    description: string,
    frequency: Frequency,
    isActive: bool,
    userId: UserId,
    createdAt: nat,
    updatedAt: nat)

  /** The object the service returns for a habit: the frequency as its API string. */
  datatype HabitView = HabitView(
    id: HabitId,
    name: string,
    description: string,
    frequency: string,
    isActive: bool,
    userId: UserId,
    createdAt: nat,
    updatedAt: nat)

  datatype Saved = Saved(habit: HabitView, message: string)

  datatype Removed = Removed(message: string, id: HabitId)

  /** The body fields a create or update receives; `None` is `undefined`. */
  datatype HabitInput = HabitInput(
    name: Option<string>,
    description: Option<string>,
    frequency: Option<string>,
    isActive: Option<bool>)

  /** The query-string filters of a listing; each is absent or the raw string. */
  datatype Filters = Filters(isActive: Option<string>, frequency: Option<string>, name: Option<string>)

  /** The `where` object given to the query. */
  datatype Where = Where(
    userId: UserId,
    isActive: Option<bool>,
    frequency: Option<Frequency>,
    nameContains: Option<string>)

  /** `mapFrequency`: a known name maps to its value, anything else to "Diário". */
  function MapFrequency(value: string): (f: Frequency)
    ensures HabitModel.FrequencyOfName(value).Some? ==> f == HabitModel.FrequencyOfName(value).value
    ensures HabitModel.FrequencyOfName(value).None? ==> f == HabitModel.Daily
  {
    HabitModel.FrequencyOfName(value).GetOr(HabitModel.Daily)
  }

  /** `unmapFrequency`: the stored value's API string. */
  function UnmapFrequency(f: Frequency): (s: string)
    ensures MapFrequency(s) == f
  {
    HabitModel.FrequencyName(f)
  }

  /** On the four API strings the two maps are inverse; any other string reads back as "Diário". */
  lemma MapUnmapOnNames(s: string)
    ensures HabitModel.FrequencyOfName(s).Some? ==> UnmapFrequency(MapFrequency(s)) == s
    ensures HabitModel.FrequencyOfName(s).None? ==> UnmapFrequency(MapFrequency(s)) == HabitModel.DEFAULT_FREQUENCY
  {
    HabitModel.FrequencyNameRoundTrip(s);
  }

  function View(h: Habit): (v: HabitView)
    ensures v.id == h.id && v.userId == h.userId && v.createdAt == h.createdAt && v.updatedAt == h.updatedAt
    ensures v.name == h.name && v.description == h.description && v.isActive == h.isActive
    ensures MapFrequency(v.frequency) == h.frequency
  {
    HabitView(h.id, h.name, h.description, UnmapFrequency(h.frequency), h.isActive, h.userId, h.createdAt, h.updatedAt)
  }

  /** The create and PUT guard: `!data.name || data.name.trim().length < 2`. */
  predicate NameRejected(name: Option<string>) {
    name.None? || Utf16Length(Trim(name.value)) < 2
  }

  /** The PATCH guard: only a supplied name is checked. */
  predicate PatchNameRejected(name: Option<string>) {
    name.Some? && Utf16Length(Trim(name.value)) < 2
  }

  /** A supplied name is judged alike by both guards; an absent one is rejected by create and PUT only. */
  lemma PatchGuardAgreesOnSuppliedNames(name: Option<string>)
    ensures name.Some? ==> (PatchNameRejected(name) <==> NameRejected(name))
    ensures name.None? ==> NameRejected(name) && !PatchNameRejected(name)
  {
  }

  /** The row `createHabit` inserts: the name as given, defaults for absent fields, the caller as owner. */
  function NewHabit(id: HabitId, userId: UserId, data: HabitInput, now: nat): (h: Habit)
    requires !NameRejected(data.name)
    ensures h.id == id && h.userId == userId && h.createdAt == now && h.updatedAt == now
    ensures h.name == data.name.value
    ensures data.description.None? ==> h.description == ""
    ensures data.frequency.None? ==> h.frequency == HabitModel.Daily
    ensures data.isActive.None? ==> h.isActive
    ensures data.description.Some? ==> h.description == data.description.value
    ensures data.frequency.Some? ==> h.frequency == MapFrequency(data.frequency.value)
    ensures data.isActive.Some? ==> h.isActive == data.isActive.value
  {
    Habit(
      id,
      data.name.value,
      data.description.GetOr(""),
      MapFrequency(data.frequency.GetOr(HabitModel.DEFAULT_FREQUENCY)),
      data.isActive.GetOr(true),
      userId,
      now,
      now)
  }

  /** The row after PUT: the name overwritten, the other fields replaced only when supplied. */
  function Put(h: Habit, data: HabitInput, now: nat): (r: Habit)
    requires !NameRejected(data.name)
    ensures r.id == h.id && r.userId == h.userId && r.createdAt == h.createdAt && r.updatedAt == now
    ensures r.name == data.name.value
    ensures data.description.None? ==> r.description == h.description
    ensures data.frequency.None? ==> r.frequency == h.frequency
    ensures data.isActive.None? ==> r.isActive == h.isActive
    ensures data.description.Some? ==> r.description == data.description.value
    ensures data.frequency.Some? ==> r.frequency == MapFrequency(data.frequency.value)
    ensures data.isActive.Some? ==> r.isActive == data.isActive.value
  {
    h.(
      name := data.name.value,
      description := data.description.GetOr(h.description),
      frequency := if data.frequency.Some? then MapFrequency(data.frequency.value) else h.frequency,
      isActive := data.isActive.GetOr(h.isActive),
      updatedAt := now)
  }

  /** The row after PATCH: each supplied field replaced, each absent one kept. */
  function Patch(h: Habit, data: HabitInput, now: nat): (r: Habit)
    ensures r.id == h.id && r.userId == h.userId && r.createdAt == h.createdAt && r.updatedAt == now
    ensures data.name.None? ==> r.name == h.name
    ensures data.description.None? ==> r.description == h.description
    ensures data.frequency.None? ==> r.frequency == h.frequency
    ensures data.isActive.None? ==> r.isActive == h.isActive
    ensures data.name.Some? ==> r.name == data.name.value
    ensures data.description.Some? ==> r.description == data.description.value
    ensures data.frequency.Some? ==> r.frequency == MapFrequency(data.frequency.value)
    ensures data.isActive.Some? ==> r.isActive == data.isActive.value
  {
    h.(
      name := data.name.GetOr(h.name),
      description := data.description.GetOr(h.description),
      frequency := if data.frequency.Some? then MapFrequency(data.frequency.value) else h.frequency,
      isActive := data.isActive.GetOr(h.isActive),
      updatedAt := now)
  }

  /** A PATCH that supplies a name is a PUT; PUT differs from PATCH only in requiring the name. */
  lemma PatchWithNameIsPut(h: Habit, data: HabitInput, now: nat)
    requires !NameRejected(data.name)
    ensures Patch(h, data, now) == Put(h, data, now)
  {
  }

  /** Applying the same PATCH twice is applying it once. */
  lemma PatchIdempotent(h: Habit, data: HabitInput, now: nat)
    ensures Patch(Patch(h, data, now), data, now) == Patch(h, data, now)
  {
  }

  /** An empty PATCH only touches the update time. */
  lemma EmptyPatchKeepsContent(h: Habit, now: nat)
    ensures Patch(h, HabitInput(None, None, None, None), now) == h.(updatedAt := now)
  {
  }

  /** `findUnique` by id, then the ownership test: absent is NotFound, someone else's is Forbidden. */
  function Lookup(habits: map<HabitId, Habit>, userId: UserId, id: HabitId): (r: Result<Habit, HabitError>)
    ensures r.Ok? <==> id in habits && habits[id].userId == userId
    ensures r.Ok? ==> r.value == habits[id]
    ensures r == Err(HabitNotFound) <==> id !in habits
    ensures r == Err(Forbidden) <==> id in habits && habits[id].userId != userId
  {
    if id !in habits then Err(HabitNotFound)
    else if habits[id].userId != userId then Err(Forbidden)
    else Ok(habits[id])
  }

  /** Existence is reported before ownership: nobody learns from a Forbidden that someone else's id is free. */
  lemma LookupOfOthersHabits(habits: map<HabitId, Habit>, caller: UserId, id: HabitId)
    requires id in habits && habits[id].userId != caller
    ensures Lookup(habits, caller, id) == Err(Forbidden)
    ensures Lookup(habits, habits[id].userId, id) == Ok(habits[id])
  {
  }

  /** Changing one row does not change what a lookup of another row reports. */
  lemma LookupIsLocal(habits: map<HabitId, Habit>, k: HabitId, h: Habit, userId: UserId, id: HabitId)
    requires id != k
    ensures Lookup(habits[k := h], userId, id) == Lookup(habits, userId, id)
    ensures Lookup(habits - {k}, userId, id) == Lookup(habits, userId, id)
  {
  }

  /** What a listing selects, stated on the owner and the raw query filters. */
  predicate Selected(h: Habit, userId: UserId, filters: Filters) {
    && h.userId == userId
    && (filters.isActive.Some? ==> h.isActive == (filters.isActive.value == "true"))
    && (filters.frequency.Some? && filters.frequency.value != "" ==> h.frequency == MapFrequency(filters.frequency.value))
    && (filters.name.Some? && filters.name.value != "" ==> ContainsInsensitive(h.name, filters.name.value))
  }

  /** The database's reading of a `where` object (`contains` with `mode: 'insensitive'`). */
  predicate Satisfies(h: Habit, w: Where) {
    && h.userId == w.userId
    && (w.isActive.Some? ==> h.isActive == w.isActive.value)
    && (w.frequency.Some? ==> h.frequency == w.frequency.value)
    && (w.nameContains.Some? ==> ContainsInsensitive(h.name, w.nameContains.value))
  }

  /** Any `isActive` value other than the exact string "true" selects the inactive habits. */
  lemma IsActiveFilterIsExact(h: Habit, userId: UserId, filters: Filters)
    requires filters.isActive.Some? && filters.isActive.value != "true"
    requires Selected(h, userId, filters)
    ensures !h.isActive
  {
  }

  /** A name filter matches a habit in whatever case either is written. */
  lemma NameFilterIgnoresCase(h: Habit, userId: UserId, filters: Filters, needle: string)
    requires filters.name == Some(needle) && needle != []
    ensures Selected(h, userId, filters) <==> Selected(h, userId, filters.(name := Some(Lower(needle))))
    ensures Selected(h, userId, filters) <==> Selected(h.(name := Lower(h.name)), userId, filters)
  {
    LowerIdempotent(needle);
    LowerIdempotent(h.name);
    assert Lower(needle) != [] by { assert |Lower(needle)| == |needle|; }
  }

  /** The reading of one row on behalf of a caller: the lookup's verdict, the generic error on a driver failure. */
  function Fetch(habits: map<HabitId, Habit>, userId: UserId, id: HabitId, fault: Option<string>): (r: Result<HabitView, HabitError>)
    ensures fault.Some? ==> r == Err(Internal(FETCH_FAILED))
    ensures fault.None? && Lookup(habits, userId, id).Ok? ==> r == Ok(View(habits[id]))
    ensures fault.None? && Lookup(habits, userId, id).Err? ==> r == Err(Lookup(habits, userId, id).error)
  {
    if fault.Some? then Err(Rethrow(Internal(fault.value), LOOKUP_PASSES, FETCH_FAILED))
    else
      match Lookup(habits, userId, id)
      case Ok(h) => Ok(View(h))
      case Err(e) => Err(Rethrow(e, LOOKUP_PASSES, FETCH_FAILED))
  }

  /** Newest first: `orderBy: { createdAt: 'desc' }`. */
  predicate NewestFirst(s: seq<Habit>) {
    forall i, j | 0 <= i < j < |s| :: s[i].createdAt >= s[j].createdAt
  }

  predicate DistinctIds(s: seq<Habit>) {
    forall i, j | 0 <= i < j < |s| :: s[i].id != s[j].id
  }

  /** Places a row in a newest-first sequence, before the first older one. */
  function InsertNewestFirst(s: seq<Habit>, h: Habit): (r: seq<Habit>)
    requires NewestFirst(s)
    ensures NewestFirst(r)
    ensures multiset(r) == multiset(s) + multiset{h}
    ensures forall x :: x in r <==> x == h || x in s
  {
    if s == [] || s[0].createdAt <= h.createdAt then [h] + s
    else
      var rest := InsertNewestFirst(s[1..], h);
      InsertBehindHead(s, h, rest);
      [s[0]] + rest
  }

  /** The step of the insertion that keeps the head: what holds of the tail's insertion holds of the whole. */
  lemma InsertBehindHead(s: seq<Habit>, h: Habit, rest: seq<Habit>)
    requires NewestFirst(s) && s != [] && s[0].createdAt > h.createdAt
    requires NewestFirst(rest)
    requires multiset(rest) == multiset(s[1..]) + multiset{h}
    requires forall x :: x in rest <==> x == h || x in s[1..]
    ensures NewestFirst([s[0]] + rest)
    ensures multiset([s[0]] + rest) == multiset(s) + multiset{h}
    ensures forall x :: x in [s[0]] + rest <==> x == h || x in s
  {
    assert s == [s[0]] + s[1..];
    var r := [s[0]] + rest;
    forall i, j | 0 <= i < j < |r| ensures r[i].createdAt >= r[j].createdAt {
      assert r[j] == rest[j - 1] && r[j] in rest;
      if r[j] != h {
        var k :| 0 <= k < |s[1..]| && s[1..][k] == r[j];
        assert r[j] == s[k + 1];
      }
      if i > 0 { assert r[i] == rest[i - 1]; }
    }
  }

  lemma {:induction false} InsertKeepsDistinctIds(s: seq<Habit>, h: Habit)
    requires NewestFirst(s) && DistinctIds(s)
    requires forall x | x in s :: x.id != h.id
    ensures DistinctIds(InsertNewestFirst(s, h))
  {
    if s == [] || s[0].createdAt <= h.createdAt {
    } else {
      assert s == [s[0]] + s[1..];
      InsertKeepsDistinctIds(s[1..], h);
      var rest := InsertNewestFirst(s[1..], h);
      forall x | x in rest ensures x.id != s[0].id {
        if x != h { var k :| 0 <= k < |s[1..]| && s[1..][k] == x; assert x == s[k + 1]; }
      }
    }
  }

  /** The habit table. */
  class HabitStore {
    var habits: map<HabitId, Habit>

    /** Every row is stored under its own id. */
    ghost predicate Valid()
      reads this
    {
      forall id | id in habits :: habits[id].id == id
    }

    constructor ()
      ensures Valid() && habits == map[]
    {
      habits := map[];
    }

    /** `createHabit(userId, data)`: validate the name, then insert a row owned by the caller under a fresh id. */
    method CreateHabit(userId: UserId, data: HabitInput, newId: HabitId, now: nat, fault: Option<string>)
      returns (r: Result<Saved, HabitError>)
      requires Valid()
      requires newId !in habits
      modifies this
      ensures Valid()
      ensures NameRejected(data.name) ==> r == Err(ValidationError(NAME_INVALID)) && habits == old(habits)
      ensures !NameRejected(data.name) && fault.Some? ==> r == Err(Internal(CREATE_FAILED)) && habits == old(habits)
      ensures !NameRejected(data.name) && fault.None? ==>
        && habits == old(habits)[newId := NewHabit(newId, userId, data, now)]
        && r == Ok(Saved(View(habits[newId]), CREATED))
    {
      if NameRejected(data.name) {
        r := Err(Rethrow(ValidationError(NAME_INVALID), CREATE_PASSES, CREATE_FAILED));
        return;
      }
      if fault.Some? {
        r := Err(Rethrow(Internal(fault.value), CREATE_PASSES, CREATE_FAILED));
        return;
      }
      var habit := NewHabit(newId, userId, data, now);
      habits := habits[newId := habit];
      r := Ok(Saved(View(habit), CREATED));
    }

    /** `findMany({ where, orderBy: { createdAt: 'desc' } })`: every row satisfying `where` once, newest first. */
    method FindMany(where: Where) returns (found: seq<Habit>)
      requires Valid()
      ensures NewestFirst(found) && DistinctIds(found)
      ensures forall x | x in found :: x.id in habits && habits[x.id] == x && Satisfies(x, where)
      ensures forall id | id in habits && Satisfies(habits[id], where) :: habits[id] in found
    {
      var pending := habits.Keys;
      found := [];
      while pending != {}
        invariant pending <= habits.Keys
        invariant NewestFirst(found) && DistinctIds(found)
        invariant forall x | x in found :: x.id in habits && x.id !in pending && habits[x.id] == x && Satisfies(x, where)
        invariant forall id | id in habits && id !in pending && Satisfies(habits[id], where) :: habits[id] in found
        decreases |pending|
      {
        var id :| id in pending;
        pending := pending - {id};
        if Satisfies(habits[id], where) {
          InsertKeepsDistinctIds(found, habits[id]);
          found := InsertNewestFirst(found, habits[id]);
        }
      }
    }

    /**
     * `getHabits(userId, filters)`: build the `where` object field by field,
     * then collect the matching rows newest first.
     */
    method GetHabits(userId: UserId, filters: Filters, fault: Option<string>)
      returns (r: Result<seq<HabitView>, HabitError>)
      requires Valid()
      ensures fault.Some? ==> r == Err(Internal(LIST_FAILED))
      ensures fault.None? ==> r.Ok?
      ensures r.Ok? ==> forall i | 0 <= i < |r.value| ::
        && r.value[i].userId == userId
        && r.value[i].id in habits
        && r.value[i] == View(habits[r.value[i].id])
        && Selected(habits[r.value[i].id], userId, filters)
      ensures r.Ok? ==> forall id | id in habits && Selected(habits[id], userId, filters) ::
        exists i | 0 <= i < |r.value| :: r.value[i].id == id
      ensures r.Ok? ==> forall i, j | 0 <= i < j < |r.value| ::
        r.value[i].id != r.value[j].id && r.value[i].createdAt >= r.value[j].createdAt
    {
      if fault.Some? {
        r := Err(Rethrow(Internal(fault.value), LIST_PASSES, LIST_FAILED));
        return;
      }
      var where := Where(userId, None, None, None);
      if filters.isActive.Some? {
        where := where.(isActive := Some(filters.isActive.value == "true"));
      }
      if filters.frequency.Some? && filters.frequency.value != "" {
        where := where.(frequency := Some(MapFrequency(filters.frequency.value)));
      }
      if filters.name.Some? && filters.name.value != "" {
        where := where.(nameContains := Some(filters.name.value));
      }
      assert forall h: Habit :: Satisfies(h, where) <==> Selected(h, userId, filters);
      var found := FindMany(where);
      var views := seq(|found|, i requires 0 <= i < |found| => View(found[i]));
      forall id | id in habits && Selected(habits[id], userId, filters)
        ensures exists i | 0 <= i < |views| :: views[i].id == id
      {
        var i :| 0 <= i < |found| && found[i] == habits[id];
        assert views[i].id == id;
      }
      forall i | 0 <= i < |views| ensures views[i].id in habits && views[i] == View(habits[views[i].id]) {
        assert found[i] in found;
      }
      r := Ok(views);
    }

    /** `getHabitById(userId, id)`. */
    function GetHabitById(userId: UserId, id: HabitId, fault: Option<string>): (r: Result<HabitView, HabitError>)
      reads this
      ensures fault.Some? ==> r == Err(Internal(FETCH_FAILED))
      ensures fault.None? ==> (r.Ok? <==> id in habits && habits[id].userId == userId)
      ensures fault.None? ==> (r == Err(HabitNotFound) <==> id !in habits)
      ensures fault.None? ==> (r == Err(Forbidden) <==> id in habits && habits[id].userId != userId)
      ensures r.Ok? ==> r.value == View(habits[id]) && r.value.userId == userId
    {
      Fetch(habits, userId, id, fault)
    }

    /**
     * `updateHabit` (PUT): the name is validated before the row is looked up;
     * NotFound is reported before Forbidden.
     */
    method UpdateHabit(userId: UserId, id: HabitId, data: HabitInput, now: nat, fault: Option<string>)
      returns (r: Result<Saved, HabitError>)
      requires Valid()
      modifies this
      ensures Valid()
      ensures NameRejected(data.name) ==> r == Err(ValidationError(NAME_INVALID)) && habits == old(habits)
      ensures !NameRejected(data.name) && fault.Some? ==> r == Err(Internal(UPDATE_FAILED)) && habits == old(habits)
      ensures !NameRejected(data.name) && fault.None? && Lookup(old(habits), userId, id).Err? ==>
        r == Err(Lookup(old(habits), userId, id).error) && habits == old(habits)
      ensures !NameRejected(data.name) && fault.None? && Lookup(old(habits), userId, id).Ok? ==>
        && habits == old(habits)[id := Put(old(habits)[id], data, now)]
        && r == Ok(Saved(View(habits[id]), UPDATED))
      ensures r.Ok? ==> id in old(habits) && old(habits)[id].userId == userId
    {
      if NameRejected(data.name) {
        r := Err(Rethrow(ValidationError(NAME_INVALID), UPDATE_PASSES, UPDATE_FAILED));
        return;
      }
      if fault.Some? {
        r := Err(Rethrow(Internal(fault.value), UPDATE_PASSES, UPDATE_FAILED));
        return;
      }
      var found := Lookup(habits, userId, id);
      if found.Err? {
        r := Err(Rethrow(found.error, UPDATE_PASSES, UPDATE_FAILED));
        return;
      }
      var updated := Put(found.value, data, now);
      habits := habits[id := updated];
      r := Ok(Saved(View(updated), UPDATED));
    }

    /** `patchHabit` (PATCH): a supplied name is validated first; only supplied fields change. */
    method PatchHabit(userId: UserId, id: HabitId, data: HabitInput, now: nat, fault: Option<string>)
      returns (r: Result<Saved, HabitError>)
      requires Valid()
      modifies this
      ensures Valid()
      ensures PatchNameRejected(data.name) ==> r == Err(ValidationError(NAME_INVALID)) && habits == old(habits)
      ensures !PatchNameRejected(data.name) && fault.Some? ==> r == Err(Internal(UPDATE_FAILED)) && habits == old(habits)
      ensures !PatchNameRejected(data.name) && fault.None? && Lookup(old(habits), userId, id).Err? ==>
        r == Err(Lookup(old(habits), userId, id).error) && habits == old(habits)
      ensures !PatchNameRejected(data.name) && fault.None? && Lookup(old(habits), userId, id).Ok? ==>
        && habits == old(habits)[id := Patch(old(habits)[id], data, now)]
        && r == Ok(Saved(View(habits[id]), UPDATED))
      ensures r.Ok? ==> id in old(habits) && old(habits)[id].userId == userId
    {
      if PatchNameRejected(data.name) {
        r := Err(Rethrow(ValidationError(NAME_INVALID), UPDATE_PASSES, UPDATE_FAILED));
        return;
      }
      if fault.Some? {
        r := Err(Rethrow(Internal(fault.value), UPDATE_PASSES, UPDATE_FAILED));
        return;
      }
      var found := Lookup(habits, userId, id);
      if found.Err? {
        r := Err(Rethrow(found.error, UPDATE_PASSES, UPDATE_FAILED));
        return;
      }
      var updated := Patch(found.value, data, now);
      habits := habits[id := updated];
      r := Ok(Saved(View(updated), UPDATED));
    }

    /** `deleteHabit(userId, id)`: the same NotFound/Forbidden order, then exactly that row goes. */
    method DeleteHabit(userId: UserId, id: HabitId, fault: Option<string>)
      returns (r: Result<Removed, HabitError>)
      requires Valid()
      modifies this
      ensures Valid()
      ensures fault.Some? ==> r == Err(Internal(DELETE_FAILED)) && habits == old(habits)
      ensures fault.None? && Lookup(old(habits), userId, id).Err? ==>
        r == Err(Lookup(old(habits), userId, id).error) && habits == old(habits)
      ensures fault.None? && Lookup(old(habits), userId, id).Ok? ==>
        habits == old(habits) - {id} && r == Ok(Removed(DELETED, id))
      ensures r.Ok? ==> id in old(habits) && old(habits)[id].userId == userId && |habits| == |old(habits)| - 1
    {
      if fault.Some? {
        r := Err(Rethrow(Internal(fault.value), LOOKUP_PASSES, DELETE_FAILED));
        return;
      }
      var found := Lookup(habits, userId, id);
      if found.Err? {
        r := Err(Rethrow(found.error, LOOKUP_PASSES, DELETE_FAILED));
        return;
      }
      habits := habits - {id};
      r := Ok(Removed(DELETED, found.value.id));
    }
  }

  /** A habit just created is returned to its owner, refused to anyone else, and listed for its owner. */
  method CreateThenRead(userId: UserId, other: UserId, name: string, newId: HabitId, now: nat)
    returns (mine: Result<HabitView, HabitError>, theirs: Result<HabitView, HabitError>, listed: seq<HabitView>)
    requires other != userId && Utf16Length(Trim(name)) >= 2
    ensures mine.Ok? && mine.value.name == name && mine.value.frequency == HabitModel.DEFAULT_FREQUENCY && mine.value.isActive
    ensures theirs == Err(Forbidden)
    ensures mine.value in listed && forall v | v in listed :: v == mine.value
  {
    var store := new HabitStore();
    var created := store.CreateHabit(userId, HabitInput(Some(name), None, None, None), newId, now, None);
    mine := store.GetHabitById(userId, newId, None);
    theirs := store.GetHabitById(other, newId, None);
    var all := store.GetHabits(userId, Filters(None, None, None), None);
    listed := all.value;
    assert newId in store.habits && Selected(store.habits[newId], userId, Filters(None, None, None));
    assert forall i | 0 <= i < |listed| :: listed[i].id == newId;
    assert exists i | 0 <= i < |listed| :: listed[i].id == newId;
  }
}
