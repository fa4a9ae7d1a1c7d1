/** The contact list page: the contacts fetched for the current ordering,
    the client-side search filter over them, the ordering toggle, the
    loading flag around the fetch, and the two view conditions derived from
    the filtered list (the count label and the list header). */
module Home {
  import opened Wrappers

  /** A contact as the list endpoint returns it. */
  datatype Contact = Contact(
    id: string,
    name: string,
    email: string,
    phone: string,
    categoryId: Option<string>,
    categoryName: Option<string>)

  // ---------------------------------------------------------------------
  // Letter case (ASCII)

  function LowerChar(c: char): char
  {
    if 'A' <= c <= 'Z' then (c as int + 32) as char else c
  }

  function UpperChar(c: char): char
  {
    if 'a' <= c <= 'z' then (c as int - 32) as char else c
  }

  /** `toLowerCase`, on ASCII letters. */
  function ToLower(s: string): (r: string)
    ensures |r| == |s|
    ensures forall i :: 0 <= i < |s| ==> r[i] == LowerChar(s[i])
  {
    seq(|s|, i requires 0 <= i < |s| => LowerChar(s[i]))
  }

  /** `toUpperCase`, on ASCII letters. */
  function ToUpper(s: string): (r: string)
    ensures |r| == |s|
    ensures forall i :: 0 <= i < |s| ==> r[i] == UpperChar(s[i])
  {
    seq(|s|, i requires 0 <= i < |s| => UpperChar(s[i]))
  }

  /** Two strings that differ at most in the case of their letters. */
  predicate SameIgnoringCase(s: string, t: string)
  {
    |s| == |t| && forall i :: 0 <= i < |s| ==> LowerChar(s[i]) == LowerChar(t[i])
  }

  /** Lowering is idempotent. */
  lemma ToLowerIdempotent(s: string)
    ensures ToLower(ToLower(s)) == ToLower(s)
  {
  }

  /** Strings that differ only in letter case lower to the same string. */
  lemma SameIgnoringCaseLowersEqual(s: string, t: string)
    requires SameIgnoringCase(s, t)
    ensures ToLower(s) == ToLower(t)
  {
  }

  /** Upper-casing changes only letter case. */
  lemma UpperIsSameIgnoringCase(s: string)
    ensures SameIgnoringCase(s, ToUpper(s))
  {
  }

  // ---------------------------------------------------------------------
  // Substring search

  /** `needle` starts at position `i` of `hay`. */
  predicate OccursAt(hay: string, needle: string, i: nat)
  {
    i + |needle| <= |hay| && hay[i..i + |needle|] == needle
  }

  /** `hay.includes(needle)`: the empty string is in every string, a string
      is in itself and in any string it starts or ends, and nothing longer
      than `hay` is in it. */
  function Includes(hay: string, needle: string): (found: bool)
    ensures needle == "" ==> found
    ensures |needle| <= |hay| && (hay[..|needle|] == needle || hay[|hay| - |needle|..] == needle) ==> found
    ensures found ==> |needle| <= |hay|
  {
    assert |needle| <= |hay| ==> OccursAt(hay, needle, 0) == (hay[..|needle|] == needle);
    assert |needle| <= |hay| ==> OccursAt(hay, needle, |hay| - |needle|) == (hay[|hay| - |needle|..] == needle);
    exists i: nat | i <= |hay| :: OccursAt(hay, needle, i)
  }

  /** The filter's test: the lowered name contains the lowered term. */
  predicate Matches(c: Contact, term: string)
  {
    Includes(ToLower(c.name), ToLower(term))
  }

  // ---------------------------------------------------------------------
  // The filter

  /** `filteredContacts`: the contacts whose name contains the search term,
      ignoring case, in their original order. */
  function Filter(contacts: seq<Contact>, term: string): (r: seq<Contact>)
    ensures |r| <= |contacts|
    ensures forall c :: c in r ==> c in contacts && Matches(c, term)
  {
    if contacts == [] then []
    else (if Matches(contacts[0], term) then [contacts[0]] else []) + Filter(contacts[1..], term)
  }

  /** `xs` is `ys` with some elements dropped and the rest in order. */
  predicate IsSubsequence<T(==)>(xs: seq<T>, ys: seq<T>)
  {
    || xs == []
    || (&& ys != []
        && ((xs[0] == ys[0] && IsSubsequence(xs[1..], ys[1..])) || IsSubsequence(xs, ys[1..])))
  }

  /** Every matching contact is kept. */
  lemma {:induction false} FilterKeepsMatches(contacts: seq<Contact>, term: string, c: Contact)
    requires c in contacts && Matches(c, term)
    ensures c in Filter(contacts, term)
  {
    if contacts[0] != c {
      FilterKeepsMatches(contacts[1..], term, c);
    }
  }

  /** A contact is in the filtered list exactly when it is in the list and
      matches. */
  lemma FilterMembership(contacts: seq<Contact>, term: string, c: Contact)
    ensures c in Filter(contacts, term) <==> c in contacts && Matches(c, term)
  {
  }

  /** The filter distributes over concatenation: the result for a list is
      the result for its front followed by the result for its back. */
  lemma {:induction false} FilterAppend(a: seq<Contact>, b: seq<Contact>, term: string)
    ensures Filter(a + b, term) == Filter(a, term) + Filter(b, term)
  {
    if a == [] {
      assert a + b == b;
    } else {
      assert (a + b)[1..] == a[1..] + b;
      FilterAppend(a[1..], b, term);
    }
  }

  /** The filtered list keeps the relative order of the contacts. */
  lemma {:induction false} FilterIsSubsequence(contacts: seq<Contact>, term: string)
    ensures IsSubsequence(Filter(contacts, term), contacts)
  {
    if contacts != [] {
      FilterIsSubsequence(contacts[1..], term);
      var rest := Filter(contacts[1..], term);
      if Matches(contacts[0], term) {
        assert Filter(contacts, term) == [contacts[0]] + rest;
        assert ([contacts[0]] + rest)[1..] == rest;
      } else {
        assert Filter(contacts, term) == rest;
      }
    }
  }

  /** Every name contains the empty term. */
  lemma EveryNameMatchesEmptyTerm(c: Contact)
    ensures Matches(c, "")
  {
    assert OccursAt(ToLower(c.name), ToLower(""), 0);
  }

  /** An empty search term keeps every contact. */
  lemma {:induction false} FilterEmptyTerm(contacts: seq<Contact>)
    ensures Filter(contacts, "") == contacts
  {
    if contacts != [] {
      EveryNameMatchesEmptyTerm(contacts[0]);
      FilterEmptyTerm(contacts[1..]);
    }
  }

  /** The filter does not see the letter case of the search term. */
  lemma {:induction false} FilterIgnoresTermCase(contacts: seq<Contact>, s: string, t: string)
    requires SameIgnoringCase(s, t)
    ensures Filter(contacts, s) == Filter(contacts, t)
  {
    SameIgnoringCaseLowersEqual(s, t);
    if contacts != [] {
      FilterIgnoresTermCase(contacts[1..], s, t);
    }
  }

  /** In particular, upper-casing the search term leaves the result as it
      was. */
  lemma FilterIgnoresUpperCaseTerm(contacts: seq<Contact>, term: string)
    ensures Filter(contacts, ToUpper(term)) == Filter(contacts, term)
  {
    UpperIsSameIgnoringCase(term);
    FilterIgnoresTermCase(contacts, ToUpper(term), term);
  }

  /** Searching for "an" among Ana, Bob and Anderson keeps Ana and
      Anderson. */
  lemma FilterExample(ana: Contact, bob: Contact, anderson: Contact)
    requires ana.name == "Ana" && bob.name == "Bob" && anderson.name == "Anderson"
    ensures Filter([ana, bob, anderson], "an") == [ana, anderson]
  {
    assert ToLower("an") == "an";
    assert ToLower("Ana") == "ana";
    assert OccursAt("ana", "an", 0);
    assert ToLower("Anderson") == "anderson";
    assert OccursAt("anderson", "an", 0);
    assert ToLower("Bob") == "bob";
    assert !Includes("bob", "an") by {
      forall i: nat | i <= 3 ensures !OccursAt("bob", "an", i) {
        if i + 2 <= 3 {
          assert "bob"[i..i + 2][0] == 'b' || "bob"[i..i + 2][0] == 'o';
        }
      }
    }
    assert [ana, bob, anderson][1..] == [bob, anderson];
    assert [bob, anderson][1..] == [anderson];
    assert [anderson][1..] == [];
    assert Filter([anderson], "an") == [anderson];
    assert Filter([bob, anderson], "an") == [anderson];
  }

  // ---------------------------------------------------------------------
  // Ordering and the view conditions

  /** `handleToggleOrderBy`'s update: "asc" becomes "desc", anything else
      becomes "asc". */
  function Toggled(orderBy: string): (r: string)
    ensures r == "asc" || r == "desc"
    ensures r == "desc" <==> orderBy == "asc"
    ensures r != orderBy
  {
    if orderBy == "asc" then "desc" else "asc"
  }

  /** On the two values the page uses, toggling swaps them, and toggling
      twice restores the original. */
  lemma ToggleTwice(orderBy: string)
    requires orderBy == "asc" || orderBy == "desc"
    ensures Toggled(orderBy) != orderBy
    ensures Toggled(Toggled(orderBy)) == orderBy
  {
  }

  /** The word after the contact count: singular exactly for one contact. */
  function CountSuffix(count: nat): (r: string)
    ensures r == " contato" || r == " contatos"
    ensures r == " contato" <==> count == 1
  {
    if count == 1 then " contato" else " contatos"
  }

  const ContactsEndpoint: string := "http://localhost:3001/contacts?orderBy="

  /** The URL the page fetches for an ordering: the list endpoint with the
      ordering as the value of its `orderBy` query parameter. */
  function ContactsUrl(orderBy: string): (url: string)
    ensures |url| == |ContactsEndpoint| + |orderBy|
    ensures url[..|ContactsEndpoint|] == ContactsEndpoint
    ensures url[|ContactsEndpoint|..] == orderBy
  {
    ContactsEndpoint + orderBy
  }

  /** Distinct orderings are requested at distinct URLs. */
  lemma ContactsUrlInjective(a: string, b: string)
    requires ContactsUrl(a) == ContactsUrl(b)
    ensures a == b
  {
    assert a == ContactsUrl(a)[|ContactsEndpoint|..];
  }

  /** The state of the mounted list page. */
  class Page {
    var contacts: seq<Contact>
    var orderBy: string
    var searchTerm: string
    var isLoading: bool

    /** The ordering is always one of the two values the toggle produces:
        the page starts on "asc" and only the toggle changes it. */
    predicate Valid()
      reads this`orderBy
    {
      orderBy == "asc" || orderBy == "desc"
    }

    /** `filteredContacts`, recomputed from the current state. */
    function FilteredContacts(): seq<Contact>
      reads this`contacts, this`searchTerm
    {
      Filter(contacts, searchTerm)
    }

    /** The header's count and the word after it. */
    function CountLabel(): (r: (nat, string))
      reads this`contacts, this`searchTerm
      ensures r.0 == |FilteredContacts()|
      ensures r.1 == (if r.0 == 1 then " contato" else " contatos")
    {
      var n := |FilteredContacts()|;
      (n, CountSuffix(n))
    }

    /** The list header, with the ordering button, is shown exactly when
        some contact passes the filter. */
    function ShowsListHeader(): (r: bool)
      reads this`contacts, this`searchTerm
      ensures r <==> exists c :: c in contacts && Matches(c, searchTerm)
    {
      var shown := FilteredContacts();
      if |shown| > 0 then
        assert shown[0] in shown;
        true
      else
        assert forall c | c in contacts && Matches(c, searchTerm) :: c in shown by {
          forall c | c in contacts && Matches(c, searchTerm) ensures c in shown {
            FilterMembership(contacts, searchTerm, c);
          }
        }
        false
    }

    /** The page as first rendered: no contacts, ascending order, empty
        search, loading. */
    constructor ()
      ensures Valid()
      ensures contacts == [] && orderBy == "asc" && searchTerm == "" && isLoading
      ensures FilteredContacts() == [] && !ShowsListHeader()
    {
      contacts := [];
      orderBy := "asc";
      searchTerm := "";
      isLoading := true;
    }

    /** `handleToggleOrderBy`, followed by the re-run of the `[orderBy]`
        effect that the change triggers (the ordering always changes): the
        loading flag rises and the contacts are requested in the new order.
        The handler is reachable only through the button in the list
        header, so the header must be shown. */
    method HandleToggleOrderBy() returns (url: string)
      requires Valid() && ShowsListHeader()
      modifies this`orderBy, this`isLoading
      ensures Valid() && ShowsListHeader()
      ensures orderBy == Toggled(old(orderBy)) && orderBy != old(orderBy)
      ensures Toggled(orderBy) == old(orderBy)
      ensures isLoading
      ensures url == ContactsUrl(orderBy)
    {
      ToggleTwice(orderBy);
      orderBy := if orderBy == "asc" then "desc" else "asc";
      url := StartLoad();
    }

    /** `handleChangeSearchTerm`: only the term changes, and with it the
        filtered list; the contacts themselves are untouched. */
    method HandleChangeSearchTerm(value: string)
      modifies this`searchTerm
      ensures searchTerm == value
      ensures FilteredContacts() == Filter(contacts, value)
      ensures value == "" ==> FilteredContacts() == contacts
    {
      searchTerm := value;
      if value == "" {
        FilterEmptyTerm(contacts);
      }
    }

    /** The `orderBy` effect up to the fetch: raise the loading flag and
        request the contacts in the current order. */
    method StartLoad() returns (url: string)
      modifies this`isLoading
      ensures isLoading
      ensures url == ContactsUrl(orderBy)
    {
      isLoading := true;
      url := ContactsUrl(orderBy);
    }

    /** The `orderBy` effect once the fetch settles: the contacts are
        replaced on success and kept on failure; the loading flag drops in
        both cases. Any settling request is applied, current or not. */
    method LoadSettled(outcome: Outcome<seq<Contact>>)
      modifies this`contacts, this`isLoading
      ensures !isLoading
      ensures outcome.Succeeded? ==> contacts == outcome.value
      ensures outcome.Failed? ==> contacts == old(contacts)
    {
      if outcome.Succeeded? {
        contacts := outcome.value;
      }
      isLoading := false;
    }
  }

  /** Two fetches in flight, settling out of order, on a trace the page can
      produce: the mount's "asc" fetch returns a non-empty list, so the
      list header and its button are shown; the user toggles twice,
      requesting "desc" and then "asc" again. The newer "asc" response
      settles first and already drops the loading flag while the "desc"
      request is pending; the older "desc" response settles last and is
      the one shown, while the ordering reads "asc". */
  method OutOfOrderSettlement(first: seq<Contact>, descList: seq<Contact>, ascList: seq<Contact>)
    returns (urlMount: string, urlOlder: string, urlNewer: string,
             loadingWhileOlderPending: bool, shown: seq<Contact>, ordering: string)
    requires first != []
    ensures urlMount == ContactsUrl("asc")
    ensures urlOlder == ContactsUrl("desc") && urlNewer == ContactsUrl("asc")
    ensures !loadingWhileOlderPending
    ensures shown == descList && ordering == "asc"
  {
    var page := new Page();
    urlMount := page.StartLoad();
    page.LoadSettled(Succeeded(first));
    EveryNameMatchesEmptyTerm(first[0]);
    assert page.ShowsListHeader();
    urlOlder := page.HandleToggleOrderBy();
    urlNewer := page.HandleToggleOrderBy();
    page.LoadSettled(Succeeded(ascList));
    loadingWhileOlderPending := page.isLoading;
    page.LoadSettled(Succeeded(descList));
    shown := page.contacts;
    ordering := page.orderBy;
  }
}
