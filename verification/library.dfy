/**
 The library (`Biblioteca`): registered users, materials, loans, fines and
 the catalogue, as an immutable record that each operation rebuilds.
 */
module Library {
  import opened Materials
  import opened Lending
  import Catalogue

  datatype Library = Library(
    users: seq<User>,
    materials: seq<Material>,
    loans: seq<Loan>,
    penalties: seq<Penalty>,
    catalog: Catalogue.Catalog)

  /** What the library's operations maintain: its material list mirrors the
      catalogue, and only users that validate are registered. */
  predicate Consistent(lib: Library) {
    && lib.materials == lib.catalog.materials
    && forall i :: 0 <= i < |lib.users| ==> Validate(lib.users[i])
  }

  /** `Biblioteca()`: every collection starts empty. */
  function NewLibrary(): (lib: Library)
    ensures |lib.users| == 0 && |lib.materials| == 0 && |lib.loans| == 0 && |lib.penalties| == 0
    ensures |lib.catalog.materials| == 0
    ensures Consistent(lib)
  {
    Library([], [], [], [], Catalogue.EmptyCatalog())
  }

  /** `agregar_usuario`: the user is appended iff `registrar` succeeds,
      which it does exactly when the user validates (its message is not
      modelled);
      otherwise the library is unchanged. Nothing but the user list changes. */
  function AddUser(lib: Library, u: User): (r: Library)
    ensures Validate(u) ==> r.users == lib.users + [u]
    ensures !Validate(u) ==> r == lib
    ensures r.(users := lib.users) == lib
    ensures u in r.users <==> u in lib.users || Validate(u)
    ensures Consistent(lib) ==> Consistent(r)
  {
    if Validate(u) then lib.(users := lib.users + [u]) else lib
  }

  /** `Biblioteca.agregar_material`: the material goes at the end of both the
      library's own list and the catalogue; nothing else changes. */
  function AddMaterial(lib: Library, m: Material): (r: Library)
    ensures r.materials == lib.materials + [m]
    ensures r.catalog.materials == lib.catalog.materials + [m]
    ensures r.users == lib.users && r.loans == lib.loans && r.penalties == lib.penalties
    ensures Consistent(lib) ==> Consistent(r)
  {
    lib.(materials := lib.materials + [m], catalog := Catalogue.AddMaterial(lib.catalog, m))
  }

  /** A `Deudor` is never registered. */
  lemma DebtorNeverRegistered(lib: Library, u: User)
    ensures AddUser(lib, NewDebtor(u)) == lib
  {
  }

  /** Every user the library holds validates, whatever sequence of
      registrations produced it from an empty library. */
  lemma {:induction false} RegisteredUsersValidate(candidates: seq<User>)
    ensures forall i :: 0 <= i < |RegisterAll(NewLibrary(), candidates).users| ==>
      Validate(RegisterAll(NewLibrary(), candidates).users[i])
    ensures |RegisterAll(NewLibrary(), candidates).users| <= |candidates|
  {
    RegisterAllKeepsConsistent(NewLibrary(), candidates);
  }

  /** Registers the candidates one after another, as repeated `agregar_usuario` calls. */
  function RegisterAll(lib: Library, candidates: seq<User>): Library
    decreases |candidates|
  {
    if |candidates| == 0 then lib
    else RegisterAll(AddUser(lib, candidates[0]), candidates[1..])
  }

  lemma {:induction false} RegisterAllKeepsConsistent(lib: Library, candidates: seq<User>)
    ensures Consistent(lib) ==> Consistent(RegisterAll(lib, candidates))
    ensures |RegisterAll(lib, candidates).users| <= |lib.users| + |candidates|
    decreases |candidates|
  {
    if |candidates| > 0 {
      RegisterAllKeepsConsistent(AddUser(lib, candidates[0]), candidates[1..]);
    }
  }

  /** Searching the library's catalogue after adding a material finds what it
      found before, plus the new material when its title matches. */
  lemma SearchAfterAddMaterial(lib: Library, m: Material, keyword: string)
    ensures Catalogue.SearchByKeyword(AddMaterial(lib, m).catalog, keyword)
            == Catalogue.SearchByKeyword(lib.catalog, keyword)
               + (if Catalogue.TitleMatches(keyword, m) then [m] else [])
  {
    Catalogue.SearchAfterAdd(lib.catalog, m, keyword);
  }
}
