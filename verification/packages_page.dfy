/**
 * The admin packages page: the list of packages, the search and price
 * filter over it, the save handler (update by id when editing, prepend the
 * inserted rows when adding), the delete handler, and the card gradient
 * chosen by position. Store calls are given as their outcome.
 */
module PackagesPage {
  import opened Common

  /** A row of the `Packages` table; prices are whole rupees. */
  datatype Package = Package(id: string, name: string, description: string, price: int)

  /**
   * The filter test of one package. A price bound of None is the empty
   * input (`""`), which lets every price through.
   */
  predicate Passes(p: Package, term: string, minPrice: Option<int>, maxPrice: Option<int>) {
    && (MatchesText(p.name, term) || MatchesText(p.description, term))
    && (minPrice.None? || p.price >= minPrice.value)
    && (maxPrice.None? || p.price <= maxPrice.value)
  }

  /** `filteredPackages` */
  function FilteredPackages(ps: seq<Package>, term: string, minPrice: Option<int>, maxPrice: Option<int>): seq<Package>
  {
    Filter(ps, (p: Package) => Passes(p, term, minPrice, maxPrice))
  }

  /**
   * The filtered list keeps the order of the packages, and a package is in
   * it exactly when it is in the list and passes the search and both bounds.
   */
  lemma FilteredPackagesSpec(ps: seq<Package>, term: string, minPrice: Option<int>, maxPrice: Option<int>)
    ensures IsSubsequence(FilteredPackages(ps, term, minPrice, maxPrice), ps)
    ensures forall p :: p in FilteredPackages(ps, term, minPrice, maxPrice) <==>
      p in ps && Passes(p, term, minPrice, maxPrice)
  {
    var r := FilteredPackages(ps, term, minPrice, maxPrice);
    FilterIsSubsequence(ps, (p: Package) => Passes(p, term, minPrice, maxPrice));
    forall p | p in ps && Passes(p, term, minPrice, maxPrice) ensures p in r {
      var i :| 0 <= i < |ps| && ps[i] == p;
    }
  }

  /** With no search term and no bounds, every package is shown, in order. */
  lemma NoFilterShowsAll(ps: seq<Package>)
    ensures FilteredPackages(ps, "", None, None) == ps
  {
    forall i | 0 <= i < |ps| ensures Passes(ps[i], "", None, None) {
      EmptyTermMatches(ps[i].name);
    }
    FilterAll(ps, (p: Package) => Passes(p, "", None, None));
  }

  const Gradients: seq<string> := [
    "from-purple-400 via-pink-400 to-red-400",
    "from-green-400 via-teal-400 to-blue-500",
    "from-yellow-400 via-orange-400 to-red-500",
    "from-indigo-400 via-purple-400 to-pink-500",
    "from-pink-400 via-rose-400 to-red-500",
    "from-cyan-400 via-blue-400 to-indigo-500"
  ]

  /** `gradients[index % gradients.length]` for the card at `index` of the filtered list. */
  function Gradient(index: nat): (g: string)
    ensures g in Gradients
    ensures index < |Gradients| ==> g == Gradients[index]
  {
    Gradients[index % |Gradients|]
  }

  /** The gradients repeat every six cards, and six neighbouring cards all differ. */
  lemma GradientCycle(index: nat)
    ensures Gradient(index + 6) == Gradient(index)
    ensures forall j: nat :: index < j < index + 6 ==> Gradient(j) != Gradient(index)
  {
    assert (index + 6) % 6 == index % 6;
    forall j: nat | index < j < index + 6 ensures Gradient(j) != Gradient(index) {
      assert j % 6 != index % 6;
      assert Gradients[j % 6][5] != Gradients[index % 6][5] || Gradients[j % 6][6] != Gradients[index % 6][6];
    }
  }

  datatype PageState = PageState(
    packages: seq<Package>,
    isOpen: bool,
    editing: Option<Package>,
    loading: bool,
    deleteTarget: Option<Package>)

  /** The fetch: on an error the list stays; otherwise it becomes the rows (none when there is no data). */
  function Load(s: PageState, fails: bool, data: Option<seq<Package>>): (r: PageState)
    ensures fails ==> r == s
    ensures !fails ==> r == s.(packages := if data.Some? then data.value else [])
  {
    if fails then s else s.(packages := if data.Some? then data.value else [])
  }

  /** The values read from the form. */
  datatype PackageForm = PackageForm(name: string, description: string, price: int)

  /** The outcome of the update or insert: an error, or success with the rows `select()` returned. */
  datatype StoreResult = StoreError | StoreOk(rows: Option<seq<Package>>)

  /** `prev.map((pkg) => pkg.id === id ? { ...pkg, name, description, price } : pkg)` */
  function ApplyEdit(ps: seq<Package>, id: string, form: PackageForm): seq<Package>
  {
    MapWhere(ps, (p: Package) => p.id == id,
             (p: Package) => p.(name := form.name, description := form.description, price := form.price))
  }

  /**
   * `handleSave`: when editing, a successful update rewrites the fields of
   * the rows with the edited id; when adding, a successful insert puts the
   * returned rows in front; an error leaves the list alone. In every case
   * the `finally` block clears `loading`, closes the modal and forgets the
   * package being edited.
   */
  function Save(s: PageState, form: PackageForm, result: StoreResult): (r: PageState)
    ensures !r.loading && !r.isOpen && r.editing.None? && r.deleteTarget == s.deleteTarget
    ensures result.StoreError? ==> r.packages == s.packages
    ensures result.StoreOk? && s.editing.Some? ==>
      && |r.packages| == |s.packages|
      && forall i :: 0 <= i < |s.packages| ==>
           r.packages[i] == (if s.packages[i].id == s.editing.value.id
                             then Package(s.packages[i].id, form.name, form.description, form.price)
                             else s.packages[i])
    ensures result.StoreOk? && s.editing.None? ==>
      r.packages == (if result.rows.Some? then result.rows.value else []) + s.packages
  {
    var packages :=
      match result
      case StoreError => s.packages
      case StoreOk(rows) =>
        if s.editing.Some? then ApplyEdit(s.packages, s.editing.value.id, form)
        else (if rows.Some? then rows.value else []) + s.packages;
    s.(packages := packages, loading := false, isOpen := false, editing := None)
  }

  /** `prev.filter((pkg) => pkg.id !== id)` */
  function RemoveId(ps: seq<Package>, id: string): seq<Package>
  {
    Filter(ps, (p: Package) => p.id != id)
  }

  /**
   * `handleDeleteConfirmed`: nothing happens without a target; otherwise a
   * successful delete drops the packages with the target's id, an error
   * keeps them, and the target is cleared either way.
   */
  function DeleteConfirmed(s: PageState, fails: bool): (r: PageState)
    ensures s.deleteTarget.None? ==> r == s
    ensures s.deleteTarget.Some? ==> r.deleteTarget.None?
    ensures r.isOpen == s.isOpen && r.editing == s.editing && r.loading == s.loading
    ensures s.deleteTarget.Some? && fails ==> r.packages == s.packages
    ensures s.deleteTarget.Some? && !fails ==> r.packages == RemoveId(s.packages, s.deleteTarget.value.id)
  {
    if s.deleteTarget.None? then s
    else
      var packages := if fails then s.packages else RemoveId(s.packages, s.deleteTarget.value.id);
      s.(packages := packages, deleteTarget := None)
  }

  /**
   * The delete removes exactly the packages with the id: the rest stay in
   * order, and the list shrinks by the number of packages carrying the id.
   */
  lemma RemoveIdSpec(ps: seq<Package>, id: string)
    ensures IsSubsequence(RemoveId(ps, id), ps)
    ensures forall p :: p in RemoveId(ps, id) <==> p in ps && p.id != id
    ensures |RemoveId(ps, id)| + CountWhere(ps, (p: Package) => p.id == id) == |ps|
  {
    FilterIsSubsequence(ps, (p: Package) => p.id != id);
    forall p | p in ps && p.id != id ensures p in RemoveId(ps, id) {
      var i :| 0 <= i < |ps| && ps[i] == p;
    }
    FilterComplementCount(ps, (p: Package) => p.id == id, (p: Package) => p.id != id);
  }

  /** An edit keeps the ids, so it never changes which packages a later delete removes. */
  lemma EditKeepsIds(ps: seq<Package>, id: string, form: PackageForm)
    ensures |ApplyEdit(ps, id, form)| == |ps|
    ensures forall i :: 0 <= i < |ps| ==> ApplyEdit(ps, id, form)[i].id == ps[i].id
    ensures forall i :: 0 <= i < |ps| && ps[i].id != id ==> ApplyEdit(ps, id, form)[i] == ps[i]
  {
  }
}
