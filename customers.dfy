/**
 * Cliente: the customer record that also serves as the authenticated principal, the table-level
 * uniqueness of its login name, and the ownership of its dependent collections.
 */
module Customers {
  import opened Common

  /** The role enumeration, stored by symbolic name. */
  datatype Role = USER | ADMIN

  /** Genero; its column holds the enum's ordinal, which nothing here reads. */
  datatype Gender = Gender(symbol: string)

  /** The kinds of dependents a customer owns: facturas, tarjetas, eventos, preguntaSeguras. */
  datatype Kind = Invoice | Card | Event | SecurityQuestion

  /** SimpleGrantedAuthority */
  datatype Authority = SimpleGrantedAuthority(authority: string)

  datatype Customer = Customer(
    id: int, username: Option<string>, lastname: string, firstname: string, password: string,
    nationality: string, email: string, address: string, gender: Option<Gender>, role: Option<Role>,
    invoices: seq<int>, cards: seq<int>, events: seq<int>, securityQuestions: seq<int>)

  /** Role.name(): the symbolic name, which is also what the role column stores. */
  function RoleName(role: Role): string {
    match role
    case USER => "USER"
    case ADMIN => "ADMIN"
  }

  /** Reading the role column back: the role whose symbolic name is stored, if any. */
  function ParseRole(name: string): (r: Option<Role>)
    ensures r.Some? ==> RoleName(r.value) == name
    ensures forall role :: RoleName(role) == name ==> r == Some(role)
  {
    if name == "USER" then Some(USER) else if name == "ADMIN" then Some(ADMIN) else None
  }

  /** getAuthorities: one authority named after the role; a null role is dereferenced. */
  function Authorities(c: Customer): (r: Result<seq<Authority>>)
    ensures r.Ok? <==> c.role.Some?
    ensures c.role.None? ==> r == Err(NullPointer)
    ensures r.Ok? ==> |r.value| == 1 && r.value[0].authority == RoleName(c.role.value)
  {
    match c.role
    case None => Err(NullPointer)
    case Some(role) => Ok([SimpleGrantedAuthority(RoleName(role))])
  }

  /** A customer whose role column is read back from a stored role has that role and its one authority. */
  lemma ReloadedRoleAuthorities(c: Customer, role: Role)
    requires c.role == ParseRole(RoleName(role))
    ensures c.role == Some(role)
    ensures Authorities(c) == Ok([SimpleGrantedAuthority(RoleName(role))])
  {
  }

  /** isAccountNonExpired */
  function AccountNonExpired(c: Customer): (r: bool)
    ensures r
  {
    true
  }

  /** isAccountNonLocked */
  function AccountNonLocked(c: Customer): (r: bool)
    ensures r
  {
    true
  }

  /** isCredentialsNonExpired */
  function CredentialsNonExpired(c: Customer): (r: bool)
    ensures r
  {
    true
  }

  /** isEnabled */
  function Enabled(c: Customer): (r: bool)
    ensures r
  {
    true
  }

  // ---------------------------------------------------------------- the customer table

  /** The table's constraints on clie_usuario: never null, and no two customers share it. */
  predicate UniqueUsernames(table: map<int, Customer>) {
    && (forall id :: id in table ==> table[id].username.Some?)
    && (forall a, b :: a in table && b in table && a != b ==> table[a].username != table[b].username)
  }

  /** True when a customer other than `id` holds `username`. */
  predicate TakenByOther(table: map<int, Customer>, id: int, username: Option<string>) {
    exists other :: other in table && other != id && table[other].username == username
  }

  /** Saving a customer row (insert or update by id) under the table's constraints. */
  function SaveCustomer(table: map<int, Customer>, c: Customer): (r: Result<map<int, Customer>>)
    requires UniqueUsernames(table)
    ensures c.username.None? ==> r == Err(NotNullViolation)
    ensures c.username.Some? ==> (r == Err(Conflict) <==> TakenByOther(table, c.id, c.username))
    ensures r.Ok? <==> c.username.Some? && !TakenByOther(table, c.id, c.username)
    ensures r.Ok? ==> r.value.Keys == table.Keys + {c.id}
    ensures r.Ok? ==> UniqueUsernames(r.value) && c.id in r.value && r.value[c.id] == c
    ensures r.Ok? ==> forall id :: id in table && id != c.id ==> id in r.value && r.value[id] == table[id]
  {
    if c.username.None? then Err(NotNullViolation)
    else if TakenByOther(table, c.id, c.username) then Err(Conflict)
    else Ok(table[c.id := c])
  }

  // ---------------------------------------------------------------- dependent collections

  datatype Dependent = Dependent(kind: Kind, id: int)

  /** The customer's collection of one kind. */
  function Owned(c: Customer, kind: Kind): seq<int> {
    match kind
    case Invoice => c.invoices
    case Card => c.cards
    case Event => c.events
    case SecurityQuestion => c.securityQuestions
  }

  function WithOwned(c: Customer, kind: Kind, ids: seq<int>): (d: Customer)
    ensures Owned(d, kind) == ids
    ensures forall k :: k != kind ==> Owned(d, k) == Owned(c, k)
    ensures d.id == c.id && d.username == c.username
  {
    match kind
    case Invoice => c.(invoices := ids)
    case Card => c.(cards := ids)
    case Event => c.(events := ids)
    case SecurityQuestion => c.(securityQuestions := ids)
  }

  /** `s` without any occurrence of `x`, in the same order. */
  function Without(s: seq<int>, x: int): (r: seq<int>)
    ensures forall y :: y in r <==> y in s && y != x
    ensures |r| <= |s|
  {
    if s == [] then []
    else if s[0] == x then Without(s[1..], x)
    else [s[0]] + Without(s[1..], x)
  }

  /** Customers and, for every dependent row, the id of the customer it belongs to (mappedBy). */
  datatype Registry = Registry(customers: map<int, Customer>, owners: map<Dependent, int>)

  /** The customers' collections and the dependents' owner columns describe the same relation. */
  predicate Consistent(reg: Registry) {
    && (forall d :: d in reg.owners ==>
          reg.owners[d] in reg.customers && d.id in Owned(reg.customers[reg.owners[d]], d.kind))
    && (forall id, k, x :: id in reg.customers && x in Owned(reg.customers[id], k) ==>
          Dependent(k, x) in reg.owners && reg.owners[Dependent(k, x)] == id)
  }

  /** Deleting a customer cascades to every dependent it owns (CascadeType.ALL). */
  function RemoveCustomer(reg: Registry, id: int): (r: Registry)
    requires Consistent(reg)
    ensures Consistent(r)
    ensures id !in r.customers
    ensures r.customers.Keys == reg.customers.Keys - {id}
    ensures forall d :: d in r.owners ==> d in reg.owners
    ensures forall d :: d in r.owners ==> r.owners[d] != id
    ensures forall d :: d in reg.owners && reg.owners[d] != id ==> d in r.owners && r.owners[d] == reg.owners[d]
    ensures forall o :: o in reg.customers && o != id ==> o in r.customers && r.customers[o] == reg.customers[o]
  {
    Registry(reg.customers - {id}, map d | d in reg.owners && reg.owners[d] != id :: reg.owners[d])
  }

  /** Taking a dependent out of its customer's collection deletes its row (orphanRemoval). */
  function Detach(reg: Registry, id: int, d: Dependent): (r: Registry)
    requires Consistent(reg) && id in reg.customers
    ensures Consistent(r)
    ensures r.customers.Keys == reg.customers.Keys
    ensures d.id !in Owned(r.customers[id], d.kind)
    ensures !(d in r.owners && r.owners[d] == id)
    ensures forall e :: e in reg.owners && e != d ==> e in r.owners && r.owners[e] == reg.owners[e]
    ensures d in reg.owners && reg.owners[d] == id ==> d !in r.owners
    ensures d in r.owners ==> d in reg.owners && r.owners[d] == reg.owners[d]
    ensures forall o :: o in reg.customers && o != id ==> r.customers[o] == reg.customers[o]
    ensures forall k :: k != d.kind ==> Owned(r.customers[id], k) == Owned(reg.customers[id], k)
    ensures forall x :: x in Owned(r.customers[id], d.kind) <==> x in Owned(reg.customers[id], d.kind) && x != d.id
    ensures WithOwned(r.customers[id], d.kind, []) == WithOwned(reg.customers[id], d.kind, [])
  {
    var c := reg.customers[id];
    var c' := WithOwned(c, d.kind, Without(Owned(c, d.kind), d.id));
    var owners := if d in reg.owners && reg.owners[d] == id then reg.owners - {d} else reg.owners;
    DetachConsistent(reg, id, d, c', owners);
    Registry(reg.customers[id := c'], owners)
  }

  /** The relation stays consistent when `id`'s collection loses `d` and `d`'s row goes with it. */
  lemma DetachConsistent(reg: Registry, id: int, d: Dependent, c': Customer, owners: map<Dependent, int>)
    requires Consistent(reg) && id in reg.customers
    requires c' == WithOwned(reg.customers[id], d.kind, Without(Owned(reg.customers[id], d.kind), d.id))
    requires owners == if d in reg.owners && reg.owners[d] == id then reg.owners - {d} else reg.owners
    ensures Consistent(Registry(reg.customers[id := c'], owners))
  {
    DetachKeepsOwnersListed(reg, id, d, c', owners);
    DetachKeepsListedOwned(reg, id, d, c', owners);
  }

  /** After a detach every remaining dependent row is still listed by its owner. */
  lemma DetachKeepsOwnersListed(reg: Registry, id: int, d: Dependent, c': Customer, owners: map<Dependent, int>)
    requires Consistent(reg) && id in reg.customers
    requires c' == WithOwned(reg.customers[id], d.kind, Without(Owned(reg.customers[id], d.kind), d.id))
    requires owners == if d in reg.owners && reg.owners[d] == id then reg.owners - {d} else reg.owners
    ensures var customers := reg.customers[id := c'];
      forall e :: e in owners ==> owners[e] in customers && e.id in Owned(customers[owners[e]], e.kind)
  {
    var customers := reg.customers[id := c'];
    forall e | e in owners
      ensures owners[e] in customers && e.id in Owned(customers[owners[e]], e.kind)
    {
      if owners[e] == id && e.kind == d.kind {
        assert e != d;
        assert e.id != d.id;
      }
    }
  }

  /** After a detach every id a customer still lists has its dependent row, owned by that customer. */
  lemma DetachKeepsListedOwned(reg: Registry, id: int, d: Dependent, c': Customer, owners: map<Dependent, int>)
    requires Consistent(reg) && id in reg.customers
    requires c' == WithOwned(reg.customers[id], d.kind, Without(Owned(reg.customers[id], d.kind), d.id))
    requires owners == if d in reg.owners && reg.owners[d] == id then reg.owners - {d} else reg.owners
    ensures var customers := reg.customers[id := c'];
      forall o, k, x :: o in customers && x in Owned(customers[o], k) ==>
        Dependent(k, x) in owners && owners[Dependent(k, x)] == o
  {
    var customers := reg.customers[id := c'];
    forall o, k, x | o in customers && x in Owned(customers[o], k)
      ensures Dependent(k, x) in owners && owners[Dependent(k, x)] == o
    {
      if o == id {
        assert x in Owned(reg.customers[id], k);
        assert Dependent(k, x) != d;
      }
    }
  }
}
