/**
 * The habit routes' handlers (`src/controllers/habit.controller.ts`): each
 * checks that the gate left a caller id on the request, calls the service
 * with it, and turns the service's result or error into a status and a JSON
 * body.
 *
 * A handler is given the service call as `service`, a function of the caller
 * id, so that a handler which answers 401 is seen not to call it.
 */
module HabitController {
  import opened Common
  import Tokens
  import opened HabitService

  const LISTED: string := "Hábitos listados com sucesso"
  const CREATE_REPLY_FAILED: string := "Erro ao criar hábito"
  const LIST_REPLY_FAILED: string := "Erro ao listar hábitos"
  const FETCH_REPLY_FAILED: string := "Erro ao buscar hábito"
  const UPDATE_REPLY_FAILED: string := "Erro ao atualizar hábito"
  const DELETE_REPLY_FAILED: string := "Erro ao deletar hábito"

  /** The JSON bodies the handlers send. */
  datatype Body =
    | SavedBody(saved: Saved)
    | HabitBody(habit: HabitView)
    | ListBody(habits: seq<HabitView>, count: nat, message: string)
    | RemovedBody(removed: Removed)
    | ErrorBody(error: string)

  datatype Response = Response(status: nat, body: Body)

  const UNAUTHENTICATED: Response := Response(401, ErrorBody("Usuário não autenticado"))

  /** `req.user?.id`, tested for truthiness: no claims, or an empty id, is no caller. */
  function CallerId(user: Option<Tokens.Payload>): (id: Option<UserId>)
    ensures id.Some? <==> user.Some? && user.value.id != []
    ensures id.Some? ==> id.value == user.value.id
  {
    if user.Some? && user.value.id != [] then Some(user.value.id) else None
  }

  /** Which of the three error names a handler's catch block tests. */
  datatype Handles = Handles(validation: bool, notFound: bool, forbidden: bool)

  const CREATE_HANDLES: Handles := Handles(true, false, false)
  const LIST_HANDLES: Handles := Handles(false, false, false)
  const LOOKUP_HANDLES: Handles := Handles(false, true, true)
  const UPDATE_HANDLES: Handles := Handles(true, true, true)

  /**
   * A handler's catch block: a tested name answers 400, 404 or 403 with the
   * error's own message; anything else answers 500 with the handler's
   * message.
   */
  function Catch(e: HabitError, handles: Handles, generic: string): (r: Response)
    ensures r.status == 400 <==> e.ValidationError? && handles.validation
    ensures r.status == 404 <==> e.HabitNotFound? && handles.notFound
    ensures r.status == 403 <==> e.Forbidden? && handles.forbidden
    ensures r.status == 400 || r.status == 403 || r.status == 404 || r.status == 500
    ensures r.status != 500 ==> r.body == ErrorBody(e.Message())
    ensures r.status == 500 ==> r.body == ErrorBody(generic)
  {
    match e
    case ValidationError(m) => if handles.validation then Response(400, ErrorBody(m)) else Response(500, ErrorBody(generic))
    case HabitNotFound => if handles.notFound then Response(404, ErrorBody(NOT_FOUND)) else Response(500, ErrorBody(generic))
    case Forbidden => if handles.forbidden then Response(403, ErrorBody(FORBIDDEN)) else Response(500, ErrorBody(generic))
    case Internal(_) => Response(500, ErrorBody(generic))
  }

  /** `createHabit`: 201 with the service result, 400 on a validation error, 500 otherwise. */
  function CreateHabit(user: Option<Tokens.Payload>, service: UserId -> Result<Saved, HabitError>): (r: Response)
    ensures CallerId(user).None? ==> r == UNAUTHENTICATED
    ensures CallerId(user).Some? ==>
      var out := service(CallerId(user).value);
      && (r.status == 201 <==> out.Ok?)
      && (out.Ok? ==> r.body == SavedBody(out.value))
      && (r.status == 400 <==> out.Err? && out.error.ValidationError?)
      && (r.status == 500 <==> out.Err? && !out.error.ValidationError?)
      && (r.status == 500 ==> r.body == ErrorBody(CREATE_REPLY_FAILED))
  {
    match CallerId(user)
    case None => UNAUTHENTICATED
    case Some(id) =>
      match service(id)
      case Ok(saved) => Response(201, SavedBody(saved))
      case Err(e) => Catch(e, CREATE_HANDLES, CREATE_REPLY_FAILED)
  }

  /** `getHabits`: 200 with the habits and their count, 500 on any error. */
  function GetHabits(user: Option<Tokens.Payload>, service: UserId -> Result<seq<HabitView>, HabitError>): (r: Response)
    ensures CallerId(user).None? ==> r == UNAUTHENTICATED
    ensures CallerId(user).Some? ==>
      var out := service(CallerId(user).value);
      && (r.status == 200 <==> out.Ok?)
      && (out.Ok? ==> r.body == ListBody(out.value, |out.value|, LISTED))
      && (out.Err? ==> r == Response(500, ErrorBody(LIST_REPLY_FAILED)))
    ensures r.body.ListBody? ==> r.body.count == |r.body.habits|
  {
    match CallerId(user)
    case None => UNAUTHENTICATED
    case Some(id) =>
      match service(id)
      case Ok(habits) => Response(200, ListBody(habits, |habits|, LISTED))
      case Err(e) => Catch(e, LIST_HANDLES, LIST_REPLY_FAILED)
  }

  /** `getHabitById`: 200 with the habit, 404 not found, 403 someone else's, 500 otherwise. */
  function GetHabitById(user: Option<Tokens.Payload>, service: UserId -> Result<HabitView, HabitError>): (r: Response)
    ensures CallerId(user).None? ==> r == UNAUTHENTICATED
    ensures CallerId(user).Some? ==>
      var out := service(CallerId(user).value);
      && (r.status == 200 <==> out.Ok?)
      && (out.Ok? ==> r.body == HabitBody(out.value))
      && (r.status == 404 <==> out == Err(HabitNotFound))
      && (r.status == 403 <==> out == Err(Forbidden))
      && (r.status == 500 <==> out.Err? && (out.error.ValidationError? || out.error.Internal?))
      && (r.status == 500 ==> r.body == ErrorBody(FETCH_REPLY_FAILED))
  {
    match CallerId(user)
    case None => UNAUTHENTICATED
    case Some(id) =>
      match service(id)
      case Ok(habit) => Response(200, HabitBody(habit))
      case Err(e) => Catch(e, LOOKUP_HANDLES, FETCH_REPLY_FAILED)
  }

  /** The shared shape of `updateHabit` and `patchHabit`: 200, 400, 404, 403 or 500. */
  function Saving(user: Option<Tokens.Payload>, service: UserId -> Result<Saved, HabitError>): (r: Response)
    ensures CallerId(user).None? ==> r == UNAUTHENTICATED
    ensures CallerId(user).Some? ==>
      var out := service(CallerId(user).value);
      && (r.status == 200 <==> out.Ok?)
      && (out.Ok? ==> r.body == SavedBody(out.value))
      && (r.status == 400 <==> out.Err? && out.error.ValidationError?)
      && (r.status == 404 <==> out == Err(HabitNotFound))
      && (r.status == 403 <==> out == Err(Forbidden))
      && (r.status == 500 <==> out.Err? && out.error.Internal?)
      && (r.status == 500 ==> r.body == ErrorBody(UPDATE_REPLY_FAILED))
  {
    match CallerId(user)
    case None => UNAUTHENTICATED
    case Some(id) =>
      match service(id)
      case Ok(saved) => Response(200, SavedBody(saved))
      case Err(e) => Catch(e, UPDATE_HANDLES, UPDATE_REPLY_FAILED)
  }

  /** `updateHabit` (PUT). */
  function UpdateHabit(user: Option<Tokens.Payload>, service: UserId -> Result<Saved, HabitError>): Response
  {
    Saving(user, service)
  }

  /** `patchHabit` (PATCH): answers exactly as `updateHabit` does. */
  function PatchHabit(user: Option<Tokens.Payload>, service: UserId -> Result<Saved, HabitError>): Response
  {
    Saving(user, service)
  }

  /** `deleteHabit`: 200 with the confirmation, 404, 403 or 500. */
  function DeleteHabit(user: Option<Tokens.Payload>, service: UserId -> Result<Removed, HabitError>): (r: Response)
    ensures CallerId(user).None? ==> r == UNAUTHENTICATED
    ensures CallerId(user).Some? ==>
      var out := service(CallerId(user).value);
      && (r.status == 200 <==> out.Ok?)
      && (out.Ok? ==> r.body == RemovedBody(out.value))
      && (r.status == 404 <==> out == Err(HabitNotFound))
      && (r.status == 403 <==> out == Err(Forbidden))
      && (r.status == 500 <==> out.Err? && (out.error.ValidationError? || out.error.Internal?))
      && (r.status == 500 ==> r.body == ErrorBody(DELETE_REPLY_FAILED))
  {
    match CallerId(user)
    case None => UNAUTHENTICATED
    case Some(id) =>
      match service(id)
      case Ok(removed) => Response(200, RemovedBody(removed))
      case Err(e) => Catch(e, LOOKUP_HANDLES, DELETE_REPLY_FAILED)
  }

  /** Without a caller id every handler answers the same 401, whatever the service would have done. */
  lemma UnauthenticatedIgnoresService(user: Option<Tokens.Payload>,
                                      saves: UserId -> Result<Saved, HabitError>,
                                      lists: UserId -> Result<seq<HabitView>, HabitError>,
                                      fetches: UserId -> Result<HabitView, HabitError>,
                                      removes: UserId -> Result<Removed, HabitError>)
    requires user.None? || user.value.id == []
    ensures CreateHabit(user, saves) == GetHabits(user, lists) == GetHabitById(user, fetches)
         == UpdateHabit(user, saves) == PatchHabit(user, saves) == DeleteHabit(user, removes) == UNAUTHENTICATED
  {
  }

  /**
   * Each handler tests exactly the names its service operation rethrows:
   * a rethrown error gets its own status, and what the service replaced by
   * its generic error is a 500 with the handler's message.
   */
  lemma HandlersMatchServiceCatches(e: HabitError)
    ensures Catch(Rethrow(e, CREATE_PASSES, CREATE_FAILED), CREATE_HANDLES, CREATE_REPLY_FAILED).status == 500
        <==> e.Name() !in CREATE_PASSES
    ensures Catch(Rethrow(e, LOOKUP_PASSES, FETCH_FAILED), LOOKUP_HANDLES, FETCH_REPLY_FAILED).status == 500
        <==> e.Name() !in LOOKUP_PASSES
    ensures Catch(Rethrow(e, UPDATE_PASSES, UPDATE_FAILED), UPDATE_HANDLES, UPDATE_REPLY_FAILED).status == 500
        <==> e.Name() !in UPDATE_PASSES
    ensures Catch(Rethrow(e, LOOKUP_PASSES, DELETE_FAILED), LOOKUP_HANDLES, DELETE_REPLY_FAILED).status == 500
        <==> e.Name() !in LOOKUP_PASSES
    ensures Catch(Rethrow(e, LIST_PASSES, LIST_FAILED), LIST_HANDLES, LIST_REPLY_FAILED).status == 500
  {
  }

  /**
   * Reading one habit through the handler and the store: 200 for the owner,
   * 404 for a missing id, 403 for another user's habit, 500 when the driver
   * fails; the body of a 403 or 404 never carries the habit.
   */
  lemma FetchStatuses(habits: map<HabitId, Habit>, user: Option<Tokens.Payload>, id: HabitId, fault: Option<string>)
    requires CallerId(user).Some?
    ensures var r := GetHabitById(user, (u: UserId) => Fetch(habits, u, id, fault));
      var caller := user.value.id;
      && (r.status == 200 <==> fault.None? && id in habits && habits[id].userId == caller)
      && (r.status == 200 ==> r.body == HabitBody(View(habits[id])))
      && (r.status == 404 <==> fault.None? && id !in habits)
      && (r.status == 403 <==> fault.None? && id in habits && habits[id].userId != caller)
      && (r.status == 500 <==> fault.Some?)
      && (r.status != 200 ==> r.body.ErrorBody?)
  {
  }
}
