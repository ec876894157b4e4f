/**
 The catalogue (`Catalogo`): an ordered list of materials with
 case-insensitive search on title and author.
 */
module Catalogue {
  import opened Text
  import opened Filtering
  import opened Materials

  datatype Catalog = Catalog(materials: seq<Material>)

  /** A new catalogue holds no materials. */
  function EmptyCatalog(): (c: Catalog)
    ensures |c.materials| == 0
  {
    Catalog([])
  }

  /** `Catalogo.agregar_material`: appends, keeping the earlier materials in place. */
  function AddMaterial(c: Catalog, m: Material): (r: Catalog)
    ensures |r.materials| == |c.materials| + 1 && r.materials[|c.materials|] == m
    ensures r.materials[..|c.materials|] == c.materials
  {
    Catalog(c.materials + [m])
  }

  predicate TitleMatches(keyword: string, m: Material) {
    Matches(m.title, keyword)
  }

  predicate AuthorMatches(author: string, m: Material) {
    Matches(m.author, author)
  }

  /** `buscar_por_palabras_clave`: the materials whose lower-cased title
      contains the lower-cased keyword, in insertion order, each as often as
      it was added. */
  function SearchByKeyword(c: Catalog, keyword: string): (found: seq<Material>)
    ensures forall i :: 0 <= i < |found| ==> Contains(Lower(found[i].title), Lower(keyword))
    ensures forall m :: multiset(found)[m] == if Contains(Lower(m.title), Lower(keyword)) then multiset(c.materials)[m] else 0
    ensures IsSubsequence(found, c.materials)
  {
    Filter(c.materials, m => TitleMatches(keyword, m))
  }

  /** `filtrar_por_autor`: the same search on the author. Every material has
      an author attribute, so the `hasattr` guard in models.py always holds. */
  function FilterByAuthor(c: Catalog, author: string): (found: seq<Material>)
    ensures forall i :: 0 <= i < |found| ==> Contains(Lower(found[i].author), Lower(author))
    ensures forall m :: multiset(found)[m] == if Contains(Lower(m.author), Lower(author)) then multiset(c.materials)[m] else 0
    ensures IsSubsequence(found, c.materials)
  {
    Filter(c.materials, m => AuthorMatches(author, m))
  }

  /** A material is found by keyword iff it is catalogued and its title matches. */
  lemma SearchMembership(c: Catalog, keyword: string, m: Material)
    ensures m in SearchByKeyword(c, keyword) <==> m in c.materials && Matches(m.title, keyword)
  {
  }

  /** Adding a material extends a keyword search by that material exactly
      when its title matches; earlier results are unchanged. */
  lemma SearchAfterAdd(c: Catalog, m: Material, keyword: string)
    ensures SearchByKeyword(AddMaterial(c, m), keyword)
            == SearchByKeyword(c, keyword) + (if Matches(m.title, keyword) then [m] else [])
  {
    FilterAppend(c.materials, [m], m => TitleMatches(keyword, m));
  }

  /** The same for the author filter. */
  lemma FilterByAuthorAfterAdd(c: Catalog, m: Material, author: string)
    ensures FilterByAuthor(AddMaterial(c, m), author)
            == FilterByAuthor(c, author) + (if Matches(m.author, author) then [m] else [])
  {
    FilterAppend(c.materials, [m], m => AuthorMatches(author, m));
  }

  /** The empty keyword finds the whole catalogue. */
  lemma EmptyKeywordFindsAll(c: Catalog)
    ensures SearchByKeyword(c, "") == c.materials
  {
    forall i | 0 <= i < |c.materials|
      ensures TitleMatches("", c.materials[i])
    {
      EmptyKeywordMatches(c.materials[i].title);
    }
    FilterKeepsAll(c.materials, m => TitleMatches("", m));
  }

  /** Searching ignores the case of the keyword. */
  lemma SearchIgnoresCase(c: Catalog, keyword: string)
    ensures SearchByKeyword(c, keyword) == SearchByKeyword(c, Lower(keyword))
  {
    LowerIdempotent(keyword);
    FilterCongruent(c.materials, m => TitleMatches(keyword, m), m => TitleMatches(Lower(keyword), m));
  }
}
