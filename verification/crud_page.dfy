/**
 * The state machine shared by the five management pages: loading the list,
 * opening and closing the form, saving through the gateway and (on the
 * appointments page) deleting. A gateway call is not run here: its outcome
 * is an argument.
 */
module CrudPage {
  import opened Wrappers
  import opened Values
  import DbService

  /** The page's state: the list, the spinner, the form and the record being edited. */
  datatype Page<T> = Page(items: seq<T>, loading: bool, showForm: bool, selected: Option<T>)

  /** The notices a page raises. Only failures are destructive. */
  datatype NoticeKind = SampleData | LoadFailed | Created | Updated | Deleted | SaveFailed | DeleteFailed
  datatype Notice = Notice(kind: NoticeKind, destructive: bool)

  /** What a page does when loading fails: show its sample data, or keep what it had. */
  datatype Fallback<T> = Substitute(sample: seq<T>) | KeepPrevious

  /** A page before its first load: empty list, spinner on, form closed. */
  function Initial<T>(): (p: Page<T>)
    ensures p.loading && !p.showForm && p.selected.None? && p.items == []
  {
    Page([], true, false, None)
  }

  /**
   * The finished load: the fetched list on success; on failure the sample with
   * a plain notice, or the previous list with a destructive one. The spinner
   * stops either way; the form is untouched.
   */
  function Load<T>(p: Page<T>, fetched: Result<seq<T>, DbService.GatewayError>, fallback: Fallback<T>): (r: (Page<T>, seq<Notice>))
    ensures !r.0.loading && r.0.showForm == p.showForm && r.0.selected == p.selected
    ensures fetched.Ok? ==> r.0.items == fetched.value && r.1 == []
    ensures fetched.Err? && fallback.Substitute? ==> r.0.items == fallback.sample && r.1 == [Notice(SampleData, false)]
    ensures fetched.Err? && fallback.KeepPrevious? ==> r.0.items == p.items && r.1 == [Notice(LoadFailed, true)]
  {
    match fetched
    case Ok(data) => (p.(items := data, loading := false), [])
    case Err(_) =>
      match fallback
      case Substitute(sample) => (p.(items := sample, loading := false), [Notice(SampleData, false)])
      case KeepPrevious => (p.(loading := false), [Notice(LoadFailed, true)])
  }

  /** `handleCreateNew`: nothing selected, form open. */
  function CreateNew<T>(p: Page<T>): (r: Page<T>)
    ensures r.showForm && r.selected.None?
    ensures r.items == p.items && r.loading == p.loading
  {
    p.(selected := None, showForm := true)
  }

  /** `handleEdit…`: the record selected, form open. */
  function Edit<T>(p: Page<T>, record: T): (r: Page<T>)
    ensures r.showForm && r.selected == Some(record)
    ensures r.items == p.items && r.loading == p.loading
  {
    p.(selected := Some(record), showForm := true)
  }

  /** `handleCloseForm`: form closed, selection cleared. */
  function Close<T>(p: Page<T>): (r: Page<T>)
    ensures !r.showForm && r.selected.None?
    ensures r.items == p.items && r.loading == p.loading
  {
    p.(showForm := false, selected := None)
  }

  /** The gateway call a save makes. */
  datatype Call = Create(row: Record) | Update(id: Option<Value>, row: Record)

  /** Saving updates the payload's own `id` when a record is selected, and creates otherwise. */
  function SaveCall<T>(p: Page<T>, payload: Record): (c: Call)
    ensures c.Update? <==> p.selected.Some?
    ensures c.Update? ==> c.id == Field(payload, "id") && c.row == payload
    ensures c.Create? ==> c.row == payload
  {
    if p.selected.Some? then Update(Field(payload, "id"), payload) else Create(payload)
  }

  /**
   * After the save call: on success a notice, a reload and the form closed; on
   * failure a destructive notice and nothing else changes.
   */
  function AfterSave<T>(p: Page<T>, saved: bool, fetched: Result<seq<T>, DbService.GatewayError>, fallback: Fallback<T>)
    : (r: (Page<T>, seq<Notice>))
    ensures !saved ==> r.0 == p && r.1 == [Notice(SaveFailed, true)]
    ensures saved ==> !r.0.showForm && r.0.selected.None? && !r.0.loading
    ensures saved ==> r.0.items == Load(p, fetched, fallback).0.items
    ensures saved ==> |r.1| >= 1 && !r.1[0].destructive
  {
    if saved then
      var done := Notice(if p.selected.Some? then Updated else Created, false);
      var loaded := Load(p, fetched, fallback);
      (Close(loaded.0), [done] + loaded.1)
    else (p, [Notice(SaveFailed, true)])
  }

  /** After the delete call: on success a notice and a reload; on failure a destructive notice. */
  function AfterDelete<T>(p: Page<T>, deleted: bool, fetched: Result<seq<T>, DbService.GatewayError>, fallback: Fallback<T>)
    : (r: (Page<T>, seq<Notice>))
    ensures !deleted ==> r.0 == p && r.1 == [Notice(DeleteFailed, true)]
    ensures deleted ==> r.0 == Load(p, fetched, fallback).0 && |r.1| >= 1 && r.1[0] == Notice(Deleted, false)
    ensures r.0.showForm == p.showForm && r.0.selected == p.selected
  {
    if deleted then
      var loaded := Load(p, fetched, fallback);
      (loaded.0, [Notice(Deleted, false)] + loaded.1)
    else (p, [Notice(DeleteFailed, true)])
  }

  /** One thing that can happen to a page, with the gateway's outcome where there is one. */
  datatype Event<T> =
    | Loaded(fetched: Result<seq<T>, DbService.GatewayError>)
    | NewPressed
    | EditPressed(record: T)
    | Closed
    | SaveFinished(saved: bool, reload: Result<seq<T>, DbService.GatewayError>)
    | DeleteFinished(deleted: bool, reload: Result<seq<T>, DbService.GatewayError>)

  function Step<T>(p: Page<T>, e: Event<T>, fallback: Fallback<T>): Page<T>
  {
    match e
    case Loaded(fetched) => Load(p, fetched, fallback).0
    case NewPressed => CreateNew(p)
    case EditPressed(record) => Edit(p, record)
    case Closed => Close(p)
    case SaveFinished(saved, reload) => AfterSave(p, saved, reload, fallback).0
    case DeleteFinished(deleted, reload) => AfterDelete(p, deleted, reload, fallback).0
  }

  function Run<T>(p: Page<T>, events: seq<Event<T>>, fallback: Fallback<T>): Page<T>
    decreases |events|
  {
    if |events| == 0 then p else Run(Step(p, events[0], fallback), events[1..], fallback)
  }

  /** A record is selected only while the form is open. */
  predicate SelectionInsideForm<T>(p: Page<T>)
  {
    p.selected.Some? ==> p.showForm
  }

  /** No sequence of events leaves a record selected with the form closed. */
  lemma {:induction false} SelectionStaysInsideForm<T>(p: Page<T>, events: seq<Event<T>>, fallback: Fallback<T>)
    requires SelectionInsideForm(p)
    ensures SelectionInsideForm(Run(p, events, fallback))
    decreases |events|
  {
    if |events| > 0 {
      var q := Step(p, events[0], fallback);
      assert SelectionInsideForm(q);
      SelectionStaysInsideForm(q, events[1..], fallback);
    }
  }

  /** A failed save can be retried: the same selection leads to the same kind of call. */
  lemma FailedSaveKeepsRouting<T>(p: Page<T>, payload: Record, fetched: Result<seq<T>, DbService.GatewayError>,
                                  fallback: Fallback<T>)
    ensures SaveCall(AfterSave(p, false, fetched, fallback).0, payload) == SaveCall(p, payload)
  {
  }

  /** Opening the form for a new record after editing forgets the edited record. */
  lemma NewAfterEditCreates<T>(p: Page<T>, record: T, payload: Record)
    ensures SaveCall(Edit(p, record), payload).Update?
    ensures SaveCall(CreateNew(Edit(p, record)), payload) == Create(payload)
  {
  }
}
