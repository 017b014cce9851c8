/** The search box: the predicate `filterTransactions` applies to the ledger
    (main.js:113-117). */
module Search {
  import opened Text
  import opened Seqs
  import opened Transactions

  /** The text of the type field, as the entry form's select yields it. */
  function TypeName(k: Kind): string {
    match k
    case Income => "Income"
    case Expense => "Expense"
  }

  /** The lowercased type or the lowercased category contains the lowercased query. */
  predicate Matches(t: Transaction, query: string) {
    var q := Lower(query);
    Contains(Lower(TypeName(t.kind)), q) || Contains(Lower(t.category), q)
  }

  function MatchesQuery(query: string): Transaction -> bool {
    (t: Transaction) => Matches(t, query)
  }

  /** The entries the search shows: exactly the matching entries of the ledger. */
  function Filter(ledger: seq<Transaction>, query: string): (shown: seq<Transaction>)
    ensures |shown| <= |ledger|
    ensures forall t :: t in shown <==> t in ledger && Matches(t, query)
  {
    SelectMembers(ledger, MatchesQuery(query));
    Select(ledger, MatchesQuery(query))
  }

  /** The positions in the ledger of the entries the search shows. */
  function FilterPositions(ledger: seq<Transaction>, query: string): seq<int> {
    SelectIndices(ledger, MatchesQuery(query))
  }

  /** The search result is an order-preserving subsequence of the ledger: entry `k`
      of the result is the ledger entry at position `FilterPositions(...)[k]`, the
      positions increase strictly, and a position is listed exactly when the entry
      there matches. */
  lemma FilterIsSubsequence(ledger: seq<Transaction>, query: string)
    ensures |Filter(ledger, query)| == |FilterPositions(ledger, query)|
    ensures forall k :: 0 <= k < |FilterPositions(ledger, query)| ==>
      0 <= FilterPositions(ledger, query)[k] < |ledger| &&
      Filter(ledger, query)[k] == ledger[FilterPositions(ledger, query)[k]]
    ensures forall j, k :: 0 <= j < k < |FilterPositions(ledger, query)| ==>
      FilterPositions(ledger, query)[j] < FilterPositions(ledger, query)[k]
    ensures forall j :: 0 <= j < |ledger| ==>
      (j in FilterPositions(ledger, query) <==> Matches(ledger[j], query))
  {
    SelectByIndices(ledger, MatchesQuery(query));
  }

  /** An empty search box shows the whole ledger. */
  lemma FilterEmptyQuery(ledger: seq<Transaction>)
    ensures Filter(ledger, "") == ledger
  {
    forall i | 0 <= i < |ledger| ensures MatchesQuery("")(ledger[i]) {
      assert Lower("") == "";
      assert "" <= Lower(TypeName(ledger[i].kind));
    }
    SelectAll(ledger, MatchesQuery(""));
  }

  /** The search is case-insensitive: a query and its lowercased form match the
      same entries. */
  lemma MatchesIgnoresCase(t: Transaction, query: string)
    ensures Matches(t, query) == Matches(t, Lower(query))
  {
    LowerIdempotent(query);
  }

  /** Among entries whose category does not contain `inc`, the query "INC" finds
      every Income entry and no Expense entry. */
  lemma SearchByTypeName(t: Transaction)
    requires !Contains(Lower(t.category), "inc")
    ensures Matches(t, "INC") <==> t.kind == Income
  {
    assert Lower("INC") == "inc";
    assert Lower("Income") == "income";
    assert Lower("Expense") == "expense";
    assert "inc" <= "income";
    forall i ensures !OccursAt("expense", "inc", i) {
      if 0 <= i && i + 3 <= 7 {
        assert "expense"[i..i + 3][0] == "expense"[i] != 'i';
      }
    }
    ContainsAt("expense", "inc");
  }
}
