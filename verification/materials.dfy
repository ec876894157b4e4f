/**
 Bibliographic materials (`MaterialBibliografico` and its subclasses `Libro`,
 `Revista` and `Tesis`) and the per-material loan policy each subclass fixes.
 */
module Materials {

  /** A calendar date, kept as plain fields; nothing in the model computes with it. */
  datatype Date = Date(year: int, month: int, day: int)

  /** The subclass-specific attributes of a material. */
  datatype MaterialKind =
    | Book(publisher: string, category: string)
    | Journal(issueNumber: int, publishedOn: Date)
    | Thesis(university: string, defenseYear: int)

  datatype Material = Material(id: int, title: string, author: string, kind: MaterialKind)

  /** Loan length in days (`calcular_dias_prestamo`): books 15, journals 7, theses 10. */
  function LoanDays(m: Material): (days: nat)
    ensures m.kind.Book? ==> days == 15
    ensures m.kind.Journal? ==> days == 7
    ensures m.kind.Thesis? ==> days == 10
  {
    match m.kind
    case Book(_, _) => 15
    case Journal(_, _) => 7
    case Thesis(_, _) => 10
  }

  /** Whether a loan of the material may be renewed (`es_renovable`). */
  function IsRenewable(m: Material): (renewable: bool)
    ensures m.kind.Book? ==> renewable
    ensures m.kind.Journal? ==> !renewable
    ensures m.kind.Thesis? ==> renewable
  {
    !m.kind.Journal?
  }

  /** The policy depends on the kind of material alone, never on its
      title, author, id or subclass attributes. */
  lemma PolicyTable(m: Material, other: Material)
    ensures m.kind.Book? == other.kind.Book? && m.kind.Journal? == other.kind.Journal?
            ==> LoanDays(m) == LoanDays(other) && IsRenewable(m) == IsRenewable(other)
  {
  }
}
