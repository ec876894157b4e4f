/**
 Users (`Usuario` and its subclasses `Estudiante`, `Profesor`,
 `Administrativo`, `Deudor`), loans (`Prestamo`), the three loan states and
 fines (`Multa`).

 In models.py a loan holds its user and a user holds a list of loans, so
 the two datatypes are declared together. Both are values: a loan carries
 the user as it was when the loan was made.
 */
module Lending {
  import opened Materials
  import opened Filtering

  datatype Option<T> = None | Some(value: T)

  /** The subclass a user was built as, with that subclass's own attributes. */
  datatype Profile =
    | Plain
    | Student(career: string, semester: int)
    | Professor(department: string, contractType: string)
    | Staff(workArea: string)
    | Debtor(original: User)

  datatype User = User(id: int, name: string, email: string, role: string, profile: Profile, loans: seq<Loan>)

  /** The state object a loan delegates its fine to. An overdue state
      records the days late it was created with. */
  datatype LoanState = Active | Overdue(daysLate: int) | Returned

  /** A fine for a number of days late and the amount fixed when it was created. */
  datatype Penalty = Penalty(daysLate: int, amount: int)

  datatype Loan = Loan(user: User, material: Material, startDate: Date, state: LoanState, penalty: Option<Penalty>)

  /** Currency units charged per day late (`5.0` in models.py). */
  const FineRate: int := 5

  // ---------------------------------------------------------------- users

  /** The email holds an `'@'` somewhere. */
  predicate HasAt(email: string) {
    exists i :: 0 <= i < |email| && email[i] == '@'
  }

  /** `Usuario.validar_datos`: positive id, non-empty name, an `'@'` in the
      email and a non-empty role. */
  predicate BaseValid(u: User) {
    u.id > 0 && |u.name| > 0 && '@' in u.email && |u.role| > 0
  }

  /** `validar_datos` as dispatched on the user's subclass. Each subclass
      conjoins its own check with the inherited one; `Deudor` inherits the
      base check unchanged. */
  function Validate(u: User): (ok: bool)
    ensures ok ==> u.id > 0 && |u.name| > 0 && HasAt(u.email) && |u.role| > 0
    ensures (u.profile.Plain? || u.profile.Debtor?) ==> (ok <==> u.id > 0 && |u.name| > 0 && HasAt(u.email) && |u.role| > 0)
  {
    match u.profile
    case Plain => BaseValid(u)
    case Student(career, semester) => BaseValid(u) && |career| > 0 && 1 <= semester <= 12
    case Professor(department, contractType) => BaseValid(u) && |department| > 0 && |contractType| > 0
    case Staff(workArea) => BaseValid(u) && |workArea| > 0
    case Debtor(_) => BaseValid(u)
  }

  /** Every subclass adds exactly its own condition to the base check: a
      user validates iff the same data validates as a plain `Usuario` and
      the subclass's extra condition holds. */
  lemma SubclassesStrengthenBase(u: User)
    ensures u.profile.Student? ==>
      (Validate(u) <==> Validate(u.(profile := Plain)) && |u.profile.career| > 0 && 1 <= u.profile.semester <= 12)
    ensures u.profile.Professor? ==>
      (Validate(u) <==> Validate(u.(profile := Plain)) && |u.profile.department| > 0 && |u.profile.contractType| > 0)
    ensures u.profile.Staff? ==>
      (Validate(u) <==> Validate(u.(profile := Plain)) && |u.profile.workArea| > 0)
    ensures Validate(u) ==> Validate(u.(profile := Plain))
  {
  }

  /** `Usuario(id, nombre, correo, rol)`. */
  function NewUser(id: int, name: string, email: string, role: string): (u: User)
    ensures u.id == id && u.name == name && u.email == email && u.role == role
    ensures u.profile.Plain? && u.loans == []
    ensures Validate(u) <==> id > 0 && |name| > 0 && HasAt(email) && |role| > 0
  {
    User(id, name, email, role, Plain, [])
  }

  /** `Estudiante(...)`: the role is fixed to "Estudiante", so the role check
      always passes and validity depends only on the given data. */
  function NewStudent(id: int, name: string, email: string, career: string, semester: int): (u: User)
    ensures u.id == id && u.name == name && u.email == email
    ensures u.role == "Estudiante" && u.loans == [] && u.profile == Student(career, semester)
    ensures Validate(u) <==> id > 0 && |name| > 0 && HasAt(email) && |career| > 0 && 1 <= semester <= 12
  {
    User(id, name, email, "Estudiante", Student(career, semester), [])
  }

  /** `Profesor(...)`: the role is fixed to "Profesor". */
  function NewProfessor(id: int, name: string, email: string, department: string, contractType: string): (u: User)
    ensures u.id == id && u.name == name && u.email == email
    ensures u.role == "Profesor" && u.loans == [] && u.profile == Professor(department, contractType)
    ensures Validate(u) <==> id > 0 && |name| > 0 && HasAt(email) && |department| > 0 && |contractType| > 0
  {
    User(id, name, email, "Profesor", Professor(department, contractType), [])
  }

  /** `Administrativo(...)`: the role is fixed to "Administrativo". */
  function NewStaff(id: int, name: string, email: string, workArea: string): (u: User)
    ensures u.id == id && u.name == name && u.email == email
    ensures u.role == "Administrativo" && u.loans == [] && u.profile == Staff(workArea)
    ensures Validate(u) <==> id > 0 && |name| > 0 && HasAt(email) && |workArea| > 0
  {
    User(id, name, email, "Administrativo", Staff(workArea), [])
  }

  /** `Deudor(usuario)`: keeps the id, name and role of the wrapped user but
      is built with an empty email and a fresh loan list, so it never
      validates. */
  function NewDebtor(original: User): (d: User)
    ensures d.id == original.id && d.name == original.name && d.role == original.role
    ensures d.email == "" && d.loans == [] && d.profile == Debtor(original)
    ensures !Validate(d)
  {
    User(original.id, original.name, "", original.role, Debtor(original), [])
  }

  /** `agregar_prestamo`: the loan goes at the end of the user's list; the
      earlier loans and every other attribute stay as they were. */
  function AddLoan(u: User, l: Loan): (r: User)
    ensures |r.loans| == |u.loans| + 1 && r.loans[|u.loans|] == l
    ensures r.loans[..|u.loans|] == u.loans
    ensures r.(loans := u.loans) == u
  {
    u.(loans := u.loans + [l])
  }

  predicate IsActive(l: Loan) {
    l.state.Active?
  }

  /** `Estudiante.consultar_prestamos_activos`: the loans in the active state,
      in the order they were added, each as often as it appears. */
  function ActiveLoans(u: User): (active: seq<Loan>)
    requires u.profile.Student?
    ensures forall i :: 0 <= i < |active| ==> active[i].state.Active?
    ensures forall l :: multiset(active)[l] == if l.state.Active? then multiset(u.loans)[l] else 0
    ensures IsSubsequence(active, u.loans)
  {
    Filter(u.loans, IsActive)
  }

  /** Adding a loan to a student extends the active list by that loan
      exactly when it is active; the earlier active loans keep their order. */
  lemma ActiveLoansAfterAdd(u: User, l: Loan)
    requires u.profile.Student?
    ensures ActiveLoans(AddLoan(u, l)) == ActiveLoans(u) + (if l.state.Active? then [l] else [])
  {
    FilterAppend(u.loans, [l], IsActive);
  }

  /** A state change applied to the `i`-th loan a user holds. In models.py
      the user's list holds the very `Prestamo` object whose `cambiar_estado`
      is called, so the user sees the change; here the change is made through
      the user. Only that loan changes, and only in its state. */
  function ChangeLoanState(u: User, i: int, s: LoanState): (r: User)
    requires 0 <= i < |u.loans|
    ensures |r.loans| == |u.loans|
    ensures r.loans[i] == u.loans[i].(state := s)
    ensures forall j :: 0 <= j < |u.loans| && j != i ==> r.loans[j] == u.loans[j]
    ensures r.(loans := u.loans) == u
  {
    u.(loans := u.loans[i := ChangeState(u.loans[i], s)])
  }

  /** After the `i`-th loan of a student changes state, the active list holds
      the active loans before it, then that loan iff its new state is active,
      then the active loans after it. */
  lemma ActiveLoansAfterChange(u: User, i: int, s: LoanState)
    requires u.profile.Student?
    requires 0 <= i < |u.loans|
    ensures ActiveLoans(ChangeLoanState(u, i, s))
            == Filter(u.loans[..i], IsActive)
               + (if s.Active? then [ChangeState(u.loans[i], s)] else [])
               + Filter(u.loans[i + 1..], IsActive)
  {
    var before, loan, after := u.loans[..i], ChangeState(u.loans[i], s), u.loans[i + 1..];
    var changed := ChangeLoanState(u, i, s).loans;
    assert changed == before + [loan] + after by {
      assert u.loans == before + [u.loans[i]] + after;
    }
    assert Filter([loan], IsActive) == (if s.Active? then [loan] else []) by {
      assert [loan][1..] == [];
    }
    FilterAppend(before + [loan], after, IsActive);
    FilterAppend(before, [loan], IsActive);
  }

  /** A loan a student borrows and then returns no longer shows as active:
      the active list is what it was before the loan was added. */
  lemma ReturnedLoanLeavesActiveList(u: User, m: Material, today: Date)
    requires u.profile.Student?
    ensures ActiveLoans(ChangeLoanState(AddLoan(u, NewLoan(u, m, today)), |u.loans|, Returned)) == ActiveLoans(u)
  {
    var v := AddLoan(u, NewLoan(u, m, today));
    ActiveLoansAfterChange(v, |u.loans|, Returned);
    assert v.loans[..|u.loans|] == u.loans;
    assert v.loans[|u.loans| + 1..] == [];
  }

  /** A loan appended twice is held as two independent values: returning
      the first copy leaves the second one active. In models.py both entries
      are one object, and the same call would leave no active loan. */
  lemma DuplicateLoanCopiesAreIndependent(u: User, l: Loan)
    requires u.profile.Student? && u.loans == [] && l.state.Active?
    ensures ActiveLoans(ChangeLoanState(AddLoan(AddLoan(u, l), l), 0, Returned)) == [l]
  {
    var held := ChangeLoanState(AddLoan(AddLoan(u, l), l), 0, Returned).loans;
    assert held == [l.(state := Returned), l];
    assert held[1..] == [l];
    assert [l][1..] == [];
  }

  // ---------------------------------------------------------------- loans

  /** The fine a state charges (`calcular_multa` of each state class). */
  function StateFine(s: LoanState): (amount: int)
    ensures s.Active? || s.Returned? ==> amount == 0
    ensures s.Overdue? ==> amount == s.daysLate * FineRate
  {
    match s
    case Active => 0
    case Overdue(days) => days * FineRate
    case Returned => 0
  }

  /** Only an overdue state with positive days late charges anything, and
      every fine is a whole multiple of the rate. */
  lemma FineIsPositiveOnlyWhenLate(s: LoanState)
    ensures StateFine(s) > 0 <==> s.Overdue? && s.daysLate > 0
    ensures StateFine(s) % FineRate == 0
  {
  }

  /** `Prestamo(usuario, material)`: starts in the active state, with no
      `Multa` attached; the start date (`date.today()`) is a parameter. */
  function NewLoan(u: User, m: Material, today: Date): (l: Loan)
    ensures l.user == u && l.material == m && l.startDate == today
    ensures l.state == Active && l.penalty == None
    ensures CurrentFine(l) == 0
  {
    Loan(u, m, today, Active, None)
  }

  /** `Prestamo.calcular_multa`: whatever the current state charges. */
  function CurrentFine(l: Loan): (amount: int)
    ensures l.state.Active? || l.state.Returned? ==> amount == 0
    ensures l.state.Overdue? ==> amount == l.state.daysLate * FineRate
  {
    StateFine(l.state)
  }

  /** `cambiar_estado`: any state may replace any state; only the state
      changes, and from then on the fine is the new state's. */
  function ChangeState(l: Loan, s: LoanState): (r: Loan)
    ensures r.state == s
    ensures r.user == l.user && r.material == l.material && r.startDate == l.startDate && r.penalty == l.penalty
    ensures CurrentFine(r) == StateFine(s)
  {
    l.(state := s)
  }

  /** The fine depends on the current state alone: two loans in the same
      state owe the same, whatever their users, materials or histories. */
  lemma FineDependsOnlyOnState(l1: Loan, l2: Loan, s: LoanState)
    ensures CurrentFine(ChangeState(l1, s)) == CurrentFine(ChangeState(l2, s))
  {
  }

  /** No transition is guarded and no earlier state leaves a trace: changing
      state twice is the same as changing straight to the second state. */
  lemma ChangeStateKeepsOnlyLast(l: Loan, first: LoanState, second: LoanState)
    ensures ChangeState(ChangeState(l, first), second) == ChangeState(l, second)
    ensures ChangeState(l, l.state) == l
  {
  }

  // ---------------------------------------------------------------- fines

  /** `Multa(dias_retraso)`: the amount is computed once, at construction. */
  function NewPenalty(daysLate: int): (p: Penalty)
    ensures p.daysLate == daysLate
    ensures p.amount == FineRate * daysLate
  {
    Penalty(daysLate, daysLate * FineRate)
  }

  /** A `Multa` for some days late charges what an overdue state with the
      same days late charges. */
  lemma PenaltyMatchesOverdueFine(daysLate: int)
    ensures NewPenalty(daysLate).amount == StateFine(Overdue(daysLate))
  {
  }
}
