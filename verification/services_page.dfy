/**
 * The admin services page: the list of services, the case-insensitive
 * search over title and description, the save handler (update by id when
 * editing, prepend the inserted rows when adding) with its `finally`
 * reset, and the delete handler. Store calls are given as their outcome.
 */
module ServicesPage {
  import opened Common

  /** A row of the `services` table. */
  datatype Service = Service(id: string, title: string, description: string)

  predicate SearchHit(s: Service, term: string) {
    MatchesText(s.title, term) || MatchesText(s.description, term)
  }

  /** `filteredServices` */
  function FilteredServices(ss: seq<Service>, term: string): seq<Service>
  {
    Filter(ss, (s: Service) => SearchHit(s, term))
  }

  /**
   * The filtered list keeps the order of the services, and a service is in
   * it exactly when its title or description contains the term, ignoring case.
   */
  lemma FilteredServicesSpec(ss: seq<Service>, term: string)
    ensures IsSubsequence(FilteredServices(ss, term), ss)
    ensures forall s :: s in FilteredServices(ss, term) <==>
      s in ss && (MatchesText(s.title, term) || MatchesText(s.description, term))
  {
    var r := FilteredServices(ss, term);
    FilterIsSubsequence(ss, (s: Service) => SearchHit(s, term));
    forall s | s in ss && SearchHit(s, term) ensures s in r {
      var i :| 0 <= i < |ss| && ss[i] == s;
    }
  }

  /** An empty search shows every service, in order. */
  lemma EmptySearchShowsAll(ss: seq<Service>)
    ensures FilteredServices(ss, "") == ss
  {
    forall i | 0 <= i < |ss| ensures SearchHit(ss[i], "") {
      EmptyTermMatches(ss[i].title);
    }
    FilterAll(ss, (s: Service) => SearchHit(s, ""));
  }

  datatype PageState = PageState(
    services: seq<Service>,
    editing: Option<Service>,
    isOpen: bool,
    loading: bool,
    deleteTarget: Option<Service>)

  /** The fetch: on an error the list stays; otherwise it becomes the rows (none when there is no data). */
  function Load(s: PageState, fails: bool, data: Option<seq<Service>>): (r: PageState)
    ensures fails ==> r == s
    ensures !fails ==> r == s.(services := if data.Some? then data.value else [])
  {
    if fails then s else s.(services := if data.Some? then data.value else [])
  }

  datatype ServiceForm = ServiceForm(title: string, description: string)

  /** The outcome of the update or insert: an error, or success with the rows `select()` returned. */
  datatype StoreResult = StoreError | StoreOk(rows: Option<seq<Service>>)

  /** `prev.map((s) => s.id === id ? { ...s, title, description } : s)` */
  function ApplyEdit(ss: seq<Service>, id: string, form: ServiceForm): seq<Service>
  {
    MapWhere(ss, (s: Service) => s.id == id,
             (s: Service) => s.(title := form.title, description := form.description))
  }

  /**
   * `handleSave`: a successful edit rewrites title and description of the
   * rows with the edited id; a successful add prepends the returned rows;
   * an error keeps the list. Whatever happened, the `finally` block leaves
   * `loading` and `isOpen` false and nothing being edited.
   */
  function Save(s: PageState, form: ServiceForm, result: StoreResult): (r: PageState)
    ensures !r.loading && !r.isOpen && r.editing.None? && r.deleteTarget == s.deleteTarget
    ensures result.StoreError? ==> r.services == s.services
    ensures result.StoreOk? && s.editing.Some? ==>
      && |r.services| == |s.services|
      && forall i :: 0 <= i < |s.services| ==>
           r.services[i] == (if s.services[i].id == s.editing.value.id
                             then Service(s.services[i].id, form.title, form.description)
                             else s.services[i])
    ensures result.StoreOk? && s.editing.None? ==>
      r.services == (if result.rows.Some? then result.rows.value else []) + s.services
  {
    var services :=
      match result
      case StoreError => s.services
      case StoreOk(rows) =>
        if s.editing.Some? then ApplyEdit(s.services, s.editing.value.id, form)
        else (if rows.Some? then rows.value else []) + s.services;
    s.(services := services, loading := false, isOpen := false, editing := None)
  }

  /** `prev.filter((s) => s.id !== id)` */
  function RemoveId(ss: seq<Service>, id: string): seq<Service>
  {
    Filter(ss, (s: Service) => s.id != id)
  }

  /**
   * `handleDeleteConfirmed`: nothing happens without a target; otherwise a
   * successful delete drops the services with the target's id, an error
   * keeps them, and the target is cleared either way.
   */
  function DeleteConfirmed(s: PageState, fails: bool): (r: PageState)
    ensures s.deleteTarget.None? ==> r == s
    ensures s.deleteTarget.Some? ==> r.deleteTarget.None?
    ensures r.isOpen == s.isOpen && r.editing == s.editing && r.loading == s.loading
    ensures s.deleteTarget.Some? && fails ==> r.services == s.services
    ensures s.deleteTarget.Some? && !fails ==> r.services == RemoveId(s.services, s.deleteTarget.value.id)
  {
    if s.deleteTarget.None? then s
    else
      var services := if fails then s.services else RemoveId(s.services, s.deleteTarget.value.id);
      s.(services := services, deleteTarget := None)
  }

  /** The delete removes the services with the id and only those, keeping the order of the rest. */
  lemma RemoveIdSpec(ss: seq<Service>, id: string)
    ensures IsSubsequence(RemoveId(ss, id), ss)
    ensures forall s :: s in RemoveId(ss, id) <==> s in ss && s.id != id
    ensures |RemoveId(ss, id)| + CountWhere(ss, (s: Service) => s.id == id) == |ss|
  {
    FilterIsSubsequence(ss, (s: Service) => s.id != id);
    forall s | s in ss && s.id != id ensures s in RemoveId(ss, id) {
      var i :| 0 <= i < |ss| && ss[i] == s;
    }
    FilterComplementCount(ss, (s: Service) => s.id == id, (s: Service) => s.id != id);
  }

  /** Deleting an id that is not listed changes nothing. */
  lemma RemoveAbsentId(ss: seq<Service>, id: string)
    requires forall i :: 0 <= i < |ss| ==> ss[i].id != id
    ensures RemoveId(ss, id) == ss
  {
    FilterAll(ss, (s: Service) => s.id != id);
  }
}
