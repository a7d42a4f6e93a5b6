/** The Select Client step (components/steps/client-selection.tsx): the
    client search, selection, creation and the continue guard. */
module ClientSelection {
  import opened Wrappers
  import Seqs
  import Text
  import opened Directory
  import opened QuoteService
  import opened QuoteContext

  /** The search test of one client: name, company or email. */
  predicate MatchesClient(c: Client, search: string)
  {
    || Text.ContainsIgnoringCase(c.name, search)
    || Text.ContainsIgnoringCase(c.company, search)
    || Text.ContainsIgnoringCase(c.email, search)
  }

  /** `filteredClients`: the clients matching the search, in list order, each
      occurrence kept. */
  function FilterClients(clients: seq<Client>, search: string): (r: seq<Client>)
    ensures forall i :: 0 <= i < |r| ==> r[i] in clients && MatchesClient(r[i], search)
    ensures forall i :: 0 <= i < |clients| && MatchesClient(clients[i], search) ==> clients[i] in r
    ensures forall c :: multiset(r)[c] == if MatchesClient(c, search) then multiset(clients)[c] else 0
  {
    Seqs.FilterComplete(clients, c => MatchesClient(c, search));
    Seqs.FilterCount(clients, c => MatchesClient(c, search));
    Seqs.Filter(clients, c => MatchesClient(c, search))
  }

  /** An empty search lists every client in the original order. */
  lemma FilterClientsShowsAll(clients: seq<Client>)
    ensures FilterClients(clients, "") == clients
  {
    forall i | 0 <= i < |clients| ensures MatchesClient(clients[i], "") {
      Text.ContainsEmpty(Text.Lower(clients[i].name));
    }
    Seqs.FilterKeepsAll(clients, c => MatchesClient(c, ""));
  }

  /** The filtered list keeps the order of the client list. */
  lemma FilterClientsPreservesOrder(clients: seq<Client>, search: string)
    ensures Seqs.SubsequenceOf(FilterClients(clients, search), clients)
  {
    Seqs.FilterIsSubsequence(clients, c => MatchesClient(c, search));
  }

  /** `handleClientSelect`: only the quote's client changes. */
  function HandleClientSelect(q: Quote, c: Client): (r: Quote)
    ensures r.client == Some(c)
    ensures r.(client := q.client) == q
  {
    q.(client := Some(c))
  }

  /** The Add Client button: enabled when name, email and company are all
      filled in and no creation is in progress; the phone is optional. */
  function CanAddClient(req: CreateClientRequest, creating: bool): (r: bool)
    ensures r <==> |req.name| > 0 && |req.email| > 0 && |req.company| > 0 && !creating
  {
    req.name != "" && req.email != "" && req.company != "" && !creating
  }

  /** The phone never affects whether a client can be added. */
  lemma CanAddClientIgnoresPhone(req: CreateClientRequest, phone: Option<string>, creating: bool)
    ensures CanAddClient(req.(phone := phone), creating) == CanAddClient(req, creating)
  {
  }

  /** `handleAddClient`: creates the client in the directory and makes it the
      quote's client; the directory listing then ends with it. */
  function HandleAddClient(store: ClientStore, q: Quote, req: CreateClientRequest, now: nat): (r: (ClientStore, Quote))
    ensures |r.0| == |store| + 1 && r.0[..|store|] == store
    ensures r.1.client == Some(r.0[|store|])
    ensures r.1.client.value.name == req.name && r.1.client.value.email == req.email
    ensures r.1.client.value.company == req.company && r.1.client.value.phone == req.phone
    ensures r.1.(client := q.client) == q
  {
    var (store', created) := CreateClient(store, req, now);
    (store', q.(client := Some(created)))
  }

  /** A client added through the enabled button has a name, an email and a
      company in the directory and on the quote. */
  lemma AddedClientIsComplete(store: ClientStore, q: Quote, req: CreateClientRequest, now: nat)
    requires CanAddClient(req, false)
    ensures var (store', q') := HandleAddClient(store, q, req, now);
            && q'.client.Some? && q'.client.value == store'[|store'| - 1]
            && |q'.client.value.name| > 0 && |q'.client.value.email| > 0 && |q'.client.value.company| > 0
  {
  }

  /** `handleContinue`: nothing happens without a client; with one, the step
      becomes 2 only when the save succeeds. */
  function HandleContinue(s: Session, saved: bool): (r: Session)
    ensures r.quote == s.quote
    ensures s.quote.client.None? ==> r == s
    ensures r.currentStep == (if s.quote.client.Some? && saved then 2 else s.currentStep)
  {
    if s.quote.client.None? then s
    else if saved then s.(currentStep := 2)
    else s
  }

  /** Selecting a client, then continuing with a successful save, reaches
      the services step. */
  lemma SelectThenContinue(s: Session, c: Client)
    ensures HandleContinue(s.(quote := HandleClientSelect(s.quote, c)), true).currentStep == 2
  {
  }
}
