/** The client picker: a case-insensitive search over "nom prenom", and the dialog state
    (open/closed, loading, current search term). */
module ClientSelector {
  import opened Wrappers
  import opened Records
  import Sequences
  import Strings

  /** The text a client is searched by: the last name, a space, the first name. */
  function SearchKey(c: Client): string {
    c.nom + " " + c.prenom
  }

  predicate Matches(c: Client, term: string) {
    Strings.Contains(Strings.Lower(SearchKey(c)), Strings.Lower(term))
  }

  /** `filteredClients`: the loaded clients, in their order, whose lower-cased key contains the
      lower-cased term. */
  function FilteredClients(clients: seq<Client>, term: string): (r: seq<Client>)
    ensures |r| <= |clients|
    ensures forall k :: 0 <= k < |r| ==> r[k] in clients
    ensures forall k :: 0 <= k < |r| ==> Matches(r[k], term)
    ensures forall k :: 0 <= k < |clients| && Matches(clients[k], term) ==> clients[k] in r
  {
    Sequences.Filter(clients, (c: Client) => Matches(c, term))
  }

  /** A loaded client is listed iff its key contains the term, ignoring case. */
  lemma ListedIffMatches(clients: seq<Client>, term: string, c: Client)
    ensures c in FilteredClients(clients, term) <==> c in clients && Matches(c, term)
  {
  }

  /** Typing the term in another ASCII case selects the same clients. */
  lemma TermAsciiCaseIgnored(clients: seq<Client>, term: string, other: string)
    requires |term| == |other|
    requires forall k :: 0 <= k < |term| ==> Strings.SameAsciiLetter(term[k], other[k])
    ensures FilteredClients(clients, term) == FilteredClients(clients, other)
  {
    Strings.LowerIgnoresAsciiCase(term, other);
    Sequences.FilterCongruent(clients, (c: Client) => Matches(c, term), (c: Client) => Matches(c, other));
  }

  /** A capitalised name is found by the term in capitals: "DUPONT" finds "Dupont Jean". */
  lemma CapitalsFindName(c: Client)
    requires c.nom == "Dupont" && c.prenom == "Jean"
    ensures Matches(c, "DUPONT")
  {
    var key := Strings.Lower(SearchKey(c));
    var t := Strings.Lower("DUPONT");
    assert t == "dupont";
    assert key[..6] == "dupont";
    assert Strings.OccursAt(key, t, 0);
  }

  /** The empty term lists every loaded client, in order. */
  lemma EmptyTermListsAll(clients: seq<Client>)
    ensures FilteredClients(clients, "") == clients
  {
    var p := (c: Client) => Matches(c, "");
    forall k | 0 <= k < |clients| ensures p(clients[k]) {
      assert Strings.OccursAt(Strings.Lower(SearchKey(clients[k])), "", 0);
    }
    Sequences.FilterKeepsAll(clients, p);
  }

  /** Searching is blind to the case of the term. */
  lemma TermCaseIgnored(clients: seq<Client>, term: string)
    ensures FilteredClients(clients, Strings.Lower(term)) == FilteredClients(clients, term)
  {
    Strings.LowerIdempotent(term);
    Sequences.FilterCongruent(clients, (c: Client) => Matches(c, Strings.Lower(term)), (c: Client) => Matches(c, term));
  }

  /** Typing more characters only narrows the list. */
  lemma LongerTermNarrows(clients: seq<Client>, term: string, more: string, c: Client)
    requires c in FilteredClients(clients, term + more)
    ensures c in FilteredClients(clients, term)
  {
    Strings.LowerAppend(term, more);
    Strings.ContainsPrefix(Strings.Lower(term), Strings.Lower(more));
    Strings.ContainsTransitive(Strings.Lower(SearchKey(c)), Strings.Lower(term + more), Strings.Lower(term));
  }

  /** The listed clients keep the order in which the store returned them. */
  lemma FilteredKeepsOrder(clients: seq<Client>, term: string)
    ensures Sequences.SubsequenceOf(FilteredClients(clients, term), clients)
  {
    Sequences.FilterIsSubsequence(clients, (c: Client) => Matches(c, term));
  }

  // ---------------------------------------------------------------- dialog state

  datatype SelectorState = SelectorState(isOpen: bool, clients: seq<Client>, searchTerm: string, loading: bool)

  datatype View = Hidden | Spinner | NoClientFound | ClientList(clients: seq<Client>)

  function Initial(): SelectorState {
    SelectorState(false, [], "", false)
  }

  /** A new `isOpen` prop. The effect depends on `[isOpen]`, so it runs only when the prop
      changes: opening a closed dialog starts a fetch and clears the search; closing only hides;
      an unchanged prop changes nothing. */
  function SetOpen(s: SelectorState, isOpen: bool): (r: SelectorState)
    ensures r.isOpen == isOpen && r.clients == s.clients
    ensures isOpen && !s.isOpen ==> r.searchTerm == "" && r.loading
    ensures !(isOpen && !s.isOpen) ==> r.searchTerm == s.searchTerm && r.loading == s.loading
    ensures isOpen == s.isOpen ==> r == s
  {
    if isOpen && !s.isOpen then s.(isOpen := true, searchTerm := "", loading := true)
    else s.(isOpen := isOpen)
  }

  /** The fetch's answer: the rows, or an empty list when there are none. */
  function OnFetched(s: SelectorState, data: Option<seq<Client>>): (r: SelectorState)
    ensures !r.loading && r.isOpen == s.isOpen && r.searchTerm == s.searchTerm
    ensures data.None? ==> r.clients == []
    ensures data.Some? ==> r.clients == data.value
  {
    s.(clients := data.GetOr([]), loading := false)
  }

  /** The search input's `onChange`: only the term changes. */
  function OnSearch(s: SelectorState, term: string): (r: SelectorState)
    ensures r.searchTerm == term
    ensures r.isOpen == s.isOpen && r.clients == s.clients && r.loading == s.loading
  {
    s.(searchTerm := term)
  }

  /** What the dialog shows. */
  function Render(s: SelectorState): (v: View)
    ensures v.Hidden? <==> !s.isOpen
    ensures v.Spinner? <==> s.isOpen && s.loading
    ensures v.NoClientFound? <==> s.isOpen && !s.loading && FilteredClients(s.clients, s.searchTerm) == []
    ensures v.ClientList? ==> v.clients == FilteredClients(s.clients, s.searchTerm)
    ensures v.ClientList? ==> |v.clients| > 0 && forall k :: 0 <= k < |v.clients| ==> v.clients[k] in s.clients
  {
    if !s.isOpen then Hidden
    else if s.loading then Spinner
    else
      var shown := FilteredClients(s.clients, s.searchTerm);
      if |shown| == 0 then NoClientFound else ClientList(shown)
  }

  /** In an open, loaded dialog, after typing `term`, a client is on the list exactly when it
      was loaded and its key contains the term, ignoring case. */
  lemma SearchListsMatches(s: SelectorState, term: string, c: Client)
    requires s.isOpen && !s.loading
    ensures var v := Render(OnSearch(s, term));
            (v.ClientList? && c in v.clients) <==> c in s.clients && Matches(c, term)
  {
    ListedIffMatches(s.clients, term, c);
  }

  /** Whatever was typed before, reopening a closed dialog and receiving rows lists all of them. */
  lemma ReopenListsEverything(s: SelectorState, data: seq<Client>)
    requires !s.isOpen
    ensures Render(OnFetched(SetOpen(s, true), Some(data))) == if data == [] then NoClientFound else ClientList(data)
  {
    EmptyTermListsAll(data);
  }
}
