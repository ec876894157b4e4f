/**
 The demonstration scenario at the end of models.py, stated as facts about
 the model: two users registered, a book and a journal catalogued, and a
 loan moved to the overdue state with three days late.
 */
module Demo {
  import opened Materials
  import opened Lending
  import Library
  import Catalogue
  import Text

  function Ana(): User { NewStudent(1, "Ana García", "ana@universidad.edu", "Ingeniería", 5) }
  function Perez(): User { NewProfessor(2, "Dr. Pérez", "perez@universidad.edu", "Matemáticas", "Tiempo Completo") }
  function PythonBook(): Material {
    Material(101, "Python para Principiantes", "Autor Python", Book("Editorial Tech", "Programación"))
  }
  function ScienceJournal(): Material {
    Material(102, "Revista Científica", "Varios Autores", Journal(15, Date(2024, 1, 15)))
  }

  /** The demo library after its two registrations and two additions. */
  function DemoLibrary(): (lib: Library.Library)
    ensures lib.users == [Ana(), Perez()]
    ensures lib.materials == [PythonBook(), ScienceJournal()]
    ensures lib.catalog.materials == lib.materials
  {
    HasAtAt("ana@universidad.edu", 3);
    HasAtAt("perez@universidad.edu", 5);
    var lib := Library.NewLibrary();
    var lib := Library.AddUser(lib, Ana());
    var lib := Library.AddUser(lib, Perez());
    var lib := Library.AddMaterial(lib, PythonBook());
    Library.AddMaterial(lib, ScienceJournal())
  }

  lemma HasAtAt(email: string, i: int)
    requires 0 <= i < |email| && email[i] == '@'
    ensures HasAt(email)
  {
  }

  /** Both demo users validate, and the two materials report 15 and 7 loan days. */
  lemma DemoPolicies()
    ensures Validate(Ana()) && Validate(Perez())
    ensures LoanDays(PythonBook()) == 15 && IsRenewable(PythonBook())
    ensures LoanDays(ScienceJournal()) == 7 && !IsRenewable(ScienceJournal())
  {
    HasAtAt("ana@universidad.edu", 3);
    HasAtAt("perez@universidad.edu", 5);
  }

  /** A fresh loan owes nothing; once overdue with 3 days late it owes 15. */
  lemma DemoOverdueFine(today: Date)
    ensures CurrentFine(NewLoan(Ana(), PythonBook(), today)) == 0
    ensures CurrentFine(ChangeState(NewLoan(Ana(), PythonBook(), today), Overdue(3))) == 15
  {
  }

  /** The book's title matches "PYTHON" case-insensitively. */
  lemma BookTitleMatches()
    ensures Text.Matches(PythonBook().title, "PYTHON")
  {
    var title := Text.Lower("Python para Principiantes");
    var keyword := Text.Lower("PYTHON");
    assert keyword == "python" by {
      assert forall i :: 0 <= i < 6 ==> keyword[i] == "python"[i];
    }
    assert title[..6] == "python" by {
      assert forall i :: 0 <= i < 6 ==> title[i] == "python"[i];
    }
    assert Text.OccursAt(title, keyword, 0);
  }

  /** Searching the demo catalogue for "PYTHON" finds the book, whatever the case. */
  lemma DemoSearchFindsBook()
    ensures PythonBook() in Catalogue.SearchByKeyword(DemoLibrary().catalog, "PYTHON")
  {
    var catalog := DemoLibrary().catalog;
    assert PythonBook() in catalog.materials;
    BookTitleMatches();
    Catalogue.SearchMembership(catalog, "PYTHON", PythonBook());
  }
}
