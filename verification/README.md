# Library lending domain model

A Dafny model of the domain layer of a small university library system
(`models.py`): users and their validation rules, bibliographic materials
and their loan policy, loans with a three-state fine machine, fines, the
catalogue's case-insensitive searches, and the library's registration and
cataloguing bookkeeping.

Every entity is an immutable datatype and every operation a pure function
that returns the updated value. Python's class hierarchies become tagged
datatypes: `Profile` records which `Usuario` subclass a user was built as,
`MaterialKind` which `MaterialBibliografico` subclass a material is, and
`LoanState` which `EstadoPrestamo` object a loan currently holds.

Modules, one per concern:

- `Text`: ASCII lower-casing and substring containment (`kw in title`).
- `Filtering`: order-preserving filtering, the list comprehensions of models.py.
- `Materials`: `Libro`, `Revista`, `Tesis` and their loan days / renewability.
- `Lending`: users and their subclasses, `Deudor`, loans, loan states, `Multa`.
- `Catalogue`: `Catalogo` and its two searches.
- `Library`: `Biblioteca` and the consistency it maintains.
- `Demo`: the scenario at the end of `models.py`, stated as lemmas.

In `models.py` any loan state may replace any other (`cambiar_estado` has
no guard), `renovar` only prints a message, and a loan records
`date.today()` as its start date.

## Model

| member | source | states |
|---|---|---|
| Lending.Validate | models.py:69-129 | a valid user always satisfies the base check (positive id, non-empty name, an '@' in the email, non-empty role); plain users and debtors validate exactly on it |
| Lending.SubclassesStrengthenBase | models.py:93-129 | `Estudiante`, `Profesor` and `Administrativo` each validate iff the same data validates as a plain user and their one extra condition holds; no subclass relaxes the base check |
| Lending.NewUser | models.py:64-75 | a plain user stores the given id, name, email and role, starts with no loans, and validates iff id > 0, name non-empty, '@' in the email and role non-empty |
| Lending.NewStudent | models.py:88-98 | stores the given id, name and email with the role "Estudiante"; a student validates iff id > 0, name and career non-empty, '@' in the email and 1 <= semester <= 12 |
| Lending.NewProfessor | models.py:105-117 | stores the given id, name and email with the role "Profesor"; validates iff base data plus non-empty department and contract type |
| Lending.NewStaff | models.py:124-129 | stores the given id, name and email with the role "Administrativo"; validates iff base data plus non-empty work area |
| Lending.NewDebtor | models.py:273-276 | a debtor keeps id, name and role of the user it wraps, has an empty email and no loans, and never validates |
| Lending.AddLoan | models.py:83-84 | the loan is appended; earlier loans and every other attribute are unchanged |
| Lending.ActiveLoans | models.py:100-101 | exactly the active loans of the student, with their multiplicities, in their original order |
| Lending.ActiveLoansAfterAdd | models.py:83-101 | adding a loan extends the active list by that loan iff it is active |
| Lending.ChangeLoanState | models.py:195-196 | changing the state of a loan a user holds changes that loan's state only, keeping its user, material, start date and fine record; the other loans and the user's attributes stay |
| Lending.ActiveLoansAfterChange | models.py:100-101 | after a held loan changes state, the active list is the active loans before it, that loan iff its new state is active, then the active loans after it |
| Lending.ReturnedLoanLeavesActiveList | models.py:100-101 | a loan added and then moved to the returned state no longer appears among the student's active loans |
| Lending.DuplicateLoanCopiesAreIndependent | models.py:83-84 | a loan appended twice is held as two values: returning the first copy through the user leaves the second among the active loans (in models.py both entries are one object) |
| Lending.StateFine | models.py:217-248 | active and returned states charge 0; an overdue state charges 5 per day late |
| Lending.FineIsPositiveOnlyWhenLate | models.py:236-237 | a fine is positive iff the state is overdue with positive days late; every fine is a multiple of 5 |
| Lending.NewLoan | models.py:188-193 | a new loan keeps its user, material and start date, starts active with no fine record, and owes 0 |
| Lending.CurrentFine | models.py:201-202 | a loan's fine is 0 when active or returned and 5 per day late when overdue |
| Lending.ChangeState | models.py:195-196 | only the state changes; user, material, start date and fine record stay; the fine becomes the new state's |
| Lending.FineDependsOnlyOnState | models.py:195-202 | two loans in the same state owe the same, whatever their user, material or history |
| Lending.ChangeStateKeepsOnlyLast | models.py:195-196 | state changes are unguarded and leave no trace: two changes equal a direct change to the last state |
| Lending.NewPenalty | models.py:255-261 | a `Multa` keeps its days late and fixes its amount at 5 per day at construction |
| Lending.PenaltyMatchesOverdueFine | models.py:236-261 | a `Multa` charges the same as an overdue state with the same days late |
| Materials.LoanDays | models.py:144-180 | books 15 days, journals 7, theses 10 |
| Materials.IsRenewable | models.py:147-183 | books and theses are renewable, journals are not |
| Materials.PolicyTable | models.py:136-183 | two materials of the same kind have the same loan days and renewability, whatever their other attributes |
| Text.Contains | models.py:294 | substring test: true iff the needle occurs at some index of the text (the empty needle always does) |
| Text.Lower | models.py:294 | the lower-cased string has the same length and lower-cases each ASCII letter in place, leaving other characters alone |
| Text.Matches | models.py:294 | `keyword.lower() in text.lower()`: true iff the lower-cased keyword occurs at some index of the lower-cased text |
| Text.LowerIdempotent | models.py:294 | lower-casing twice equals lower-casing once |
| Text.MatchesIgnoresCase | models.py:292-295 | keyword matching gives the same answer on lower-cased text and keyword |
| Filtering.Filter | models.py:292-302 | the filtered list keeps exactly the elements passing the test, with their multiplicities, as a subsequence of the input |
| Filtering.FilterAppend | models.py:289-302 | filtering a concatenation is the concatenation of the filtered parts |
| Catalogue.EmptyCatalog | models.py:286-287 | a new catalogue is empty |
| Catalogue.AddMaterial | models.py:289-290 | the material is appended and the earlier ones keep their places |
| Catalogue.SearchByKeyword | models.py:292-295 | exactly the materials whose lower-cased title contains the lower-cased keyword, with multiplicities, in insertion order |
| Catalogue.FilterByAuthor | models.py:297-302 | the same on the author |
| Catalogue.SearchMembership | models.py:292-295 | a material is found iff it is catalogued and its title matches |
| Catalogue.SearchAfterAdd | models.py:289-295 | adding a material extends a keyword search by it iff its title matches |
| Catalogue.FilterByAuthorAfterAdd | models.py:289-302 | adding a material extends an author search by it iff its author matches |
| Catalogue.EmptyKeywordFindsAll | models.py:292-295 | the empty keyword finds the whole catalogue in order |
| Catalogue.SearchIgnoresCase | models.py:292-295 | searching for a keyword and for its lower-cased form give the same result |
| Library.NewLibrary | models.py:306-311 | a new library has no users, materials, loans or fines, and is consistent |
| Library.AddUser | models.py:322-324 | `registrar` succeeds exactly when the user validates, and the user is appended iff it does, else the library is unchanged; only the user list changes; consistency is preserved |
| Library.AddMaterial | models.py:326-328 | the material is appended to both the library's list and the catalogue; nothing else changes; consistency is preserved |
| Library.DebtorNeverRegistered | models.py:273-324 | adding a debtor leaves the library unchanged |
| Library.RegisteredUsersValidate | models.py:322-324 | after any sequence of registrations from an empty library, every held user validates and no more users are held than were offered |
| Library.RegisterAllKeepsConsistent | models.py:322-324 | repeated registrations preserve consistency and add at most one user each |
| Library.SearchAfterAddMaterial | models.py:326-328 | searching the catalogue after `agregar_material` finds the earlier results plus the new material iff its title matches |
| Demo.DemoLibrary | models.py:333-354 | the demo library holds both demo users and both materials, with the catalogue mirroring the material list |
| Demo.DemoPolicies | models.py:356-364 | both demo users validate; the book lends for 15 days and is renewable, the journal for 7 and is not |
| Demo.DemoOverdueFine | models.py:366-372 | the demo loan owes 0 when new and 15 once overdue with 3 days late |
| Demo.DemoSearchFindsBook | models.py:292-295 | searching the demo catalogue for "PYTHON" finds the book |

## Left out

- Console output: every `print` (`procesar_prestamo`, `renovar`, `generar_notificacion`, `archivar`, `generar_multa`, the message of `registrar`, `solicitar_material_especial`, `generar_reportes`, `consultar_historial`, `generar_alerta`, `gestionar_*`) only writes text.
- `date.today()` in the loan constructor is a clock read: the start date is a parameter of `Lending.NewLoan`. Dates are plain records; nothing computes with them.
- The back-reference from each state object to its loan is dropped: no state uses it to compute its fine.
- References become values: a loan holds the user as a value, so later changes to the user are not seen through the loan, and `Deudor` holds a copy of the user it wraps.
- Lending.ActiveLoans: in models.py a user's list and the caller share each `Prestamo` object, so `cambiar_estado` on any reference is seen by `consultar_prestamos_activos`; here a state change reaches the user's list only when made through `Lending.ChangeLoanState`, and a loan changed with `Lending.ChangeState` alone is a new value the user does not hold. A `Prestamo` appended more than once is held as separate values; `Lending.ChangeLoanState` changes one index, so the other copies keep their state until they are changed too (`Lending.DuplicateLoanCopiesAreIndependent`).
- Library.AddUser: the library stores the user value it was given; loans later added to that user, or state changes to them, are not seen through the library's user list as they are through the shared object in models.py.
- `registrar` has no member of its own: it returns exactly `validar_datos()` plus a message, and `Library.AddUser` states its effect.
- Lending.StateFine: fines are floats (`days * 5.0`) in models.py; they are integers here, exact for every integer number of days, without float rounding for huge values.
- Text.Lower: Python's `str.lower` is Unicode-aware; only ASCII letters are lower-cased here.
- The `hasattr(m, "_autor")` guard in `filtrar_por_autor` always holds, since every material sets an author; it is not modelled.
- The web layer (`app.py`, `app/app.py`), the interactive `probando.py` script and the `test.py` skeleton are not part of this model.
- The `Biblioteca` lists of loans and fines are never written by models.py; they are kept as fields and stay empty.
