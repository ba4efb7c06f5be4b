/** The companies page of the web front end: the search box that narrows the
    list, and the figures of each row. */
module CompaniesPage {
  import opened Common
  import opened Entities
  import Ordering
  import Store
  import Companies

  /** A company as the page receives it, with the optional `_count` of its
      users and applications. */
  datatype CompanyItem = CompanyItem(id: Id, name: string, userCount: Option<nat>, applicationCount: Option<nat>)

  function LowerChar(c: char): (d: char)
    ensures 'A' <= c <= 'Z' ==> d as int == c as int + 32
    ensures !('A' <= c <= 'Z') ==> d == c
  {
    if 'A' <= c <= 'Z' then (c as int + 32) as char else c
  }

  /** `toLowerCase`, on the Latin capitals. */
  function Lower(s: string): (r: string)
    ensures |r| == |s|
    ensures forall i :: 0 <= i < |s| ==> r[i] == LowerChar(s[i])
  {
    seq(|s|, i requires 0 <= i < |s| => LowerChar(s[i]))
  }

  /** Lowering twice is lowering once. */
  lemma LowerIdempotent(s: string)
    ensures Lower(Lower(s)) == Lower(s)
  {
    assert forall i :: 0 <= i < |s| ==> LowerChar(LowerChar(s[i])) == LowerChar(s[i]);
  }

  predicate OccursAt(hay: string, needle: string, i: nat) {
    i + |needle| <= |hay| && hay[i..i + |needle|] == needle
  }

  /** `includes`: `needle` occurs in `hay` at some position. */
  predicate Contains(hay: string, needle: string) {
    exists i: nat :: i <= |hay| && OccursAt(hay, needle, i)
  }

  /** The test of the search filter. */
  predicate Matches(c: CompanyItem, searchTerm: string) {
    Contains(Lower(c.name), Lower(searchTerm))
  }

  /** `filteredCompanies`. */
  function FilteredCompanies(companies: seq<CompanyItem>, searchTerm: string): (r: seq<CompanyItem>)
    ensures forall i :: 0 <= i < |r| ==> r[i] in companies && Matches(r[i], searchTerm)
    ensures forall c :: c in companies && Matches(c, searchTerm) ==> c in r
  {
    Ordering.Filter(companies, (c: CompanyItem) => Matches(c, searchTerm))
  }

  /** The empty search keeps the whole list. */
  lemma EmptySearchKeepsAll(companies: seq<CompanyItem>)
    ensures FilteredCompanies(companies, "") == companies
  {
    forall i | 0 <= i < |companies|
      ensures Matches(companies[i], "")
    {
      assert OccursAt(Lower(companies[i].name), Lower(""), 0);
    }
    Ordering.FilterKeepsAll(companies, (c: CompanyItem) => Matches(c, ""));
  }

  /** The search keeps the list's order: it only drops rows. */
  lemma FilteredIsSubsequence(companies: seq<CompanyItem>, searchTerm: string)
    ensures Ordering.IsSubsequence(FilteredCompanies(companies, searchTerm), companies)
  {
    Ordering.FilterSubsequence(companies, (c: CompanyItem) => Matches(c, searchTerm));
  }

  /** Searching the result again with the same term changes nothing. */
  lemma FilteredIdempotent(companies: seq<CompanyItem>, searchTerm: string)
    ensures FilteredCompanies(FilteredCompanies(companies, searchTerm), searchTerm)
         == FilteredCompanies(companies, searchTerm)
  {
    Ordering.FilterIdempotent(companies, (c: CompanyItem) => Matches(c, searchTerm));
  }

  /** The search ignores the case of Latin letters in the term. */
  lemma SearchIgnoresCase(companies: seq<CompanyItem>, searchTerm: string)
    ensures FilteredCompanies(companies, Lower(searchTerm)) == FilteredCompanies(companies, searchTerm)
  {
    LowerIdempotent(searchTerm);
    Ordering.FilterSameTest(companies, (c: CompanyItem) => Matches(c, Lower(searchTerm)),
                            (c: CompanyItem) => Matches(c, searchTerm));
  }

  /** The users column: `_count?.users || 0`. */
  function UsersShown(c: CompanyItem): (n: nat)
    ensures c.userCount.None? ==> n == 0
    ensures c.userCount.Some? ==> n == c.userCount.value
  {
    if c.userCount.Some? then c.userCount.value else 0
  }

  /** The devices column: `(_count?.applications || 0) * 100`, an estimate
      of one hundred devices per application. */
  function DevicesShown(c: CompanyItem): (n: nat)
    ensures c.applicationCount.None? ==> n == 0
    ensures c.applicationCount.Some? ==> n == 100 * c.applicationCount.value
    ensures n % 100 == 0
  {
    (if c.applicationCount.Some? then c.applicationCount.value else 0) * 100
  }

  /** A summary of the companies list as the page receives it: the
      `_count` object is present. */
  function ItemOf(s: Companies.CompanySummary): (c: CompanyItem)
    ensures c.id == s.company.id && c.name == s.company.name
    ensures c.userCount == Some(s.users) && c.applicationCount == Some(s.applications)
  {
    CompanyItem(s.company.id, s.company.name, Some(s.users), Some(s.applications))
  }

  /** On a list the companies service returned, the users column shows the
      number of users attached to the company, and the devices column one
      hundred per application. */
  lemma ColumnsOfSummary(db: Store.Db, i: nat)
    requires Store.CompaniesValid(db.companies, db.nextId) && i < |Companies.FindAll(db)|
    ensures var s := Companies.FindAll(db)[i];
      && UsersShown(ItemOf(s)) == Companies.UserCount(db.users, s.company.id)
      && DevicesShown(ItemOf(s)) == 100 * Companies.ApplicationCount(db.applications, s.company.id)
  {
  }
}
