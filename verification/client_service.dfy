/** The client directory (services/client-service.ts): client records and
    the append-only client store. */
module Directory {
  import opened Wrappers
  import Text

  datatype Client = Client(
    id: string,
    name: string,
    email: string,
    company: string,
    phone: Option<string>,
    createdAt: Option<int>,
    updatedAt: Option<int>)

  /** The fields a caller supplies when creating a client. */
  datatype CreateClientRequest = CreateClientRequest(
    name: string,
    email: string,
    company: string,
    phone: Option<string>)

  /** The `mockClients` array, in insertion order. */
  type ClientStore = seq<Client>

  /** The id the source derives from the clock: `client-<now>`. */
  function ClientId(now: nat): string
  {
    "client-" + Text.DecimalString(now)
  }

  /** `getClients`: a copy of the store, in store order. */
  function GetClients(store: ClientStore): seq<Client>
  {
    store
  }

  /** `createClient`: builds the client from the request, a clock-derived id
      and creation/update stamps, and appends it to the store. */
  function CreateClient(store: ClientStore, req: CreateClientRequest, now: nat): (r: (ClientStore, Client))
    ensures r.1.name == req.name && r.1.email == req.email
    ensures r.1.company == req.company && r.1.phone == req.phone
    ensures r.1.id == ClientId(now)
    ensures r.1.createdAt == Some(now) && r.1.updatedAt == Some(now)
    ensures |r.0| == |store| + 1
    ensures r.0[..|store|] == store
    ensures r.0[|store|] == r.1
  {
    var client := Client(ClientId(now), req.name, req.email, req.company, req.phone, Some(now), Some(now));
    (store + [client], client)
  }

  /** After `createClient`, listing the clients yields the old list followed
      by the new client. */
  lemma CreateThenList(store: ClientStore, req: CreateClientRequest, now: nat)
    ensures GetClients(CreateClient(store, req, now).0) == GetClients(store) + [CreateClient(store, req, now).1]
  {
    var (s', c) := CreateClient(store, req, now);
    assert s' == s'[..|store|] + [s'[|store|]];
  }

  /** Clients created at different instants have different ids; two created
      in the same millisecond share one. */
  lemma ClientIdsDistinct(t1: nat, t2: nat)
    ensures ClientId(t1) == ClientId(t2) <==> t1 == t2
  {
    if ClientId(t1) == ClientId(t2) {
      Text.PrefixedDecimalInjective("client-", t1, t2);
    }
  }
}
