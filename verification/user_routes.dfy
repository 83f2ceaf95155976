/** The saved-address endpoints of the user routes. A user keeps at most
    one default address of each type (shipping, billing): marking one as
    default first clears the flag on every other address of that type. */
module UserRoutes {
  import opened Common
  import opened Store

  /** The address fields of `POST /addresses` and `PUT /addresses/:id`, as
      posted, before the validators' trimming. */
  type AddressFields = AddressLines

  /** The `isIn(['shipping', 'billing'])` validator on `type`. */
  function ParseKind(s: string): (r: Option<AddressKind>)
    ensures r.Some? <==> s == "shipping" || s == "billing"
    ensures r == Some(ShippingKind) <==> s == "shipping"
  {
    if s == "shipping" then Some(ShippingKind)
    else if s == "billing" then Some(BillingKind)
    else None
  }

  /** `trim().isLength({ min: 1 })` on one field. */
  predicate Filled(field: string)
  {
    IsLengthCount(Trim(field)) >= 1
  }

  /** Every required field passes `isLength({ min: 1 })` once trimmed: first
      and last name, line 1, city, state, postal code and country. */
  predicate ValidFields(f: AddressFields)
  {
    Filled(f.firstName) && Filled(f.lastName) && Filled(f.addressLine1)
    && Filled(f.city) && Filled(f.state) && Filled(f.postalCode) && Filled(f.country)
  }

  /** A required field is filled exactly when, once trimmed, it holds a
      character other than a variation selector: a field of white space and
      selectors alone is refused. */
  lemma FilledIff(field: string)
    ensures Filled(field) <==> exists i :: 0 <= i < |Trim(field)| && !IsVariationSelector(Trim(field)[i])
  {
    IsLengthZero(Trim(field));
  }

  /** `addressLine2 || null`. */
  function Line2(f: AddressFields): Option<string>
  {
    match f.addressLine2
    case Some(l) => if l == "" then None else Some(l)
    case None => None
  }

  /** The stored columns: the validated fields trimmed, and line 2 as
      posted but NULL when empty. */
  function Clean(f: AddressFields): (c: AddressLines)
    ensures ValidFields(f) ==> c.firstName != "" && c.lastName != "" && c.addressLine1 != ""
    ensures ValidFields(f) ==> c.city != "" && c.state != "" && c.postalCode != "" && c.country != ""
    ensures c.addressLine2.Some? ==> c.addressLine2.value != ""
  {
    AddressLines(Trim(f.firstName), Trim(f.lastName), Trim(f.addressLine1), Line2(f),
                 Trim(f.city), Trim(f.state), Trim(f.postalCode), Trim(f.country))
  }

  /** A saved row carrying the cleaned fields. */
  function WithFields(a: SavedAddress, f: AddressFields, isDefault: bool): SavedAddress
  {
    a.(lines := Clean(f), isDefault := isDefault)
  }

  /** The inserted row: the cleaned fields under a fresh id. */
  function NewRow(id: Id, user: Id, kind: AddressKind, f: AddressFields, isDefault: bool): SavedAddress
  {
    SavedAddress(id, user, kind, Clean(f), isDefault)
  }

  /** `UPDATE user_addresses SET is_default = FALSE WHERE user_id = ? AND type = ?`. */
  function Undefault(addresses: seq<SavedAddress>, user: Id, kind: AddressKind): (r: seq<SavedAddress>)
    ensures |r| == |addresses|
    ensures forall i :: 0 <= i < |r| ==> r[i] == UnsetIfOf(addresses[i], user, kind)
  {
    MapSeq(addresses, (a: SavedAddress) => UnsetIfOf(a, user, kind))
  }

  function UnsetIfOf(a: SavedAddress, user: Id, kind: AddressKind): (r: SavedAddress)
    ensures r == a.(isDefault := r.isDefault)
    ensures r.isDefault <==> a.isDefault && !(a.user == user && a.kind == kind)
  {
    if a.user == user && a.kind == kind then a.(isDefault := false) else a
  }

  /** Two rows that are not both defaults of one (user, type). */
  predicate NotBothDefault(a: SavedAddress, b: SavedAddress)
  {
    !(a.isDefault && b.isDefault && a.user == b.user && a.kind == b.kind)
  }

  /** At most one default address per (user, type). */
  ghost predicate OneDefault(addresses: seq<SavedAddress>)
  {
    forall i, j :: 0 <= i < j < |addresses| ==> NotBothDefault(addresses[i], addresses[j])
  }

  /** `POST /addresses`: validation (400), then, if `isDefault` is set, the
      un-defaulting of the user's addresses of that type, then the insert.
      The reply carries the new address id. */
  function Add(db: Db, user: Id, kind: string, f: AddressFields, isDefault: Option<bool>): (s: Step<Id>)
    ensures s.result.Err? ==> s.db == db && s.result == Err(Invalid)
    ensures s.result.Ok? <==> ParseKind(kind).Some? && ValidFields(f)
    ensures s.result.Ok? ==> s.result.value == db.nextAddressId
    ensures s.result.Ok? ==> s.db == db.(addresses := s.db.addresses, nextAddressId := db.nextAddressId + 1)
    ensures s.result.Ok? ==> |s.db.addresses| == |db.addresses| + 1
    ensures s.result.Ok? ==> s.db.addresses[|db.addresses|] == SavedAddress(db.nextAddressId, user, ParseKind(kind).value, Clean(f), isDefault == Some(true))
  {
    match ParseKind(kind)
    case None => Step(Err(Invalid), db)
    case Some(k) =>
      if !ValidFields(f) then Step(Err(Invalid), db)
      else
        var base := if isDefault == Some(true) then Undefault(db.addresses, user, k) else db.addresses;
        var row := NewRow(db.nextAddressId, user, k, f, isDefault == Some(true));
        Step(Ok(db.nextAddressId), db.(addresses := base + [row], nextAddressId := db.nextAddressId + 1))
  }

  /** Adding as default leaves the new address the only default of its
      (user, type); adding otherwise leaves every earlier address as it was. */
  lemma AddDefaultRule(db: Db, user: Id, kind: string, f: AddressFields, isDefault: Option<bool>)
    ensures var s := Add(db, user, kind, f, isDefault);
      s.result.Ok? && isDefault == Some(true) ==>
        && s.db.addresses[|db.addresses|].isDefault
        && (forall i :: 0 <= i < |db.addresses| && db.addresses[i].user == user && db.addresses[i].kind == ParseKind(kind).value
              ==> !s.db.addresses[i].isDefault)
        && (forall i :: 0 <= i < |db.addresses| && !(db.addresses[i].user == user && db.addresses[i].kind == ParseKind(kind).value)
              ==> s.db.addresses[i] == db.addresses[i])
    ensures var s := Add(db, user, kind, f, isDefault);
      s.result.Ok? && isDefault != Some(true) ==>
        !s.db.addresses[|db.addresses|].isDefault && s.db.addresses[..|db.addresses|] == db.addresses
  {
    var s := Add(db, user, kind, f, isDefault);
    if s.result.Ok? {
      var k := ParseKind(kind).value;
      var d := isDefault == Some(true);
      var row := NewRow(db.nextAddressId, user, k, f, d);
      if d {
        assert s.db.addresses == Undefault(db.addresses, user, k) + [row];
        UndefaultThenAppend(db.addresses, user, k, row);
      } else {
        assert s.db.addresses == db.addresses + [row];
        AppendedAfter(db.addresses, row);
      }
    }
  }

  /** Un-defaulting one (user, type) and appending a row. */
  lemma UndefaultThenAppend(rows: seq<SavedAddress>, user: Id, kind: AddressKind, row: SavedAddress)
    ensures var a := Undefault(rows, user, kind) + [row];
      && a[|rows|] == row
      && (forall i :: 0 <= i < |rows| && rows[i].user == user && rows[i].kind == kind ==> !a[i].isDefault)
      && (forall i :: 0 <= i < |rows| && !(rows[i].user == user && rows[i].kind == kind) ==> a[i] == rows[i])
  {
    AppendedAfter(Undefault(rows, user, kind), row);
  }

  /** A row appended after `rows` leaves `rows` in front of it. */
  lemma AppendedAfter(rows: seq<SavedAddress>, row: SavedAddress)
    ensures (rows + [row])[..|rows|] == rows && (rows + [row])[|rows|] == row
    ensures forall i :: 0 <= i < |rows| ==> (rows + [row])[i] == rows[i]
  {
  }

  /** One row after `PUT /addresses/:id` on a row of type `kind`: the
      edited row takes the fields; with the flag set, the caller's other
      rows of that type lose theirs. */
  function EditRow(a: SavedAddress, user: Id, addressId: Id, kind: AddressKind, f: AddressFields, makeDefault: bool): (r: SavedAddress)
    ensures SameKey(r, a)
    ensures Edits(a, user, addressId) ==> r == WithFields(a, f, makeDefault)
    ensures !Edits(a, user, addressId) ==> r == a.(isDefault := r.isDefault) && (r.isDefault ==> a.isDefault)
  {
    if a.id == addressId && a.user == user then WithFields(a, f, makeDefault)
    else if makeDefault && a.user == user && a.kind == kind then a.(isDefault := false)
    else a
  }

  /** `PUT /addresses/:id`. The row must belong to the caller (404
      otherwise); its type is read and never changed; `is_default` becomes
      `isDefault || false`, so an edit without the flag un-defaults it. */
  function Update(db: Db, user: Id, addressId: Id, f: AddressFields, isDefault: Option<bool>): (s: Step<string>)
    ensures s.result.Err? ==> s.db == db
    ensures !ValidFields(f) ==> s.result == Err(Invalid)
    ensures ValidFields(f) && !Owns(db.addresses, user, addressId) ==> s.result == Err(NotFound("Address not found"))
    ensures s.result.Ok? <==> ValidFields(f) && Owns(db.addresses, user, addressId)
    ensures s.result.Ok? ==> s.db == db.(addresses := s.db.addresses)
    ensures |s.db.addresses| == |db.addresses|
    ensures forall i :: 0 <= i < |db.addresses| ==> SameKey(s.db.addresses[i], db.addresses[i])
    ensures s.result.Ok? ==> forall i :: 0 <= i < |db.addresses| && Edits(db.addresses[i], user, addressId) ==> s.db.addresses[i] == WithFields(db.addresses[i], f, isDefault == Some(true))
    ensures forall i :: 0 <= i < |db.addresses| && !Edits(db.addresses[i], user, addressId) ==> s.db.addresses[i] == db.addresses[i].(isDefault := s.db.addresses[i].isDefault)
    ensures forall i :: 0 <= i < |db.addresses| && !Edits(db.addresses[i], user, addressId) && s.db.addresses[i].isDefault ==> db.addresses[i].isDefault
  {
    if !ValidFields(f) then Step(Err(Invalid), db)
    else if !Owns(db.addresses, user, addressId) then Step(Err(NotFound("Address not found")), db)
    else
      var k := db.addresses[FirstOwned(db.addresses, user, addressId)].kind;
      Step(Ok("Address updated successfully"), db.(addresses := Edit(db.addresses, user, addressId, k, f, isDefault == Some(true))))
  }

  /** The two statements of `PUT /addresses/:id` on a row of type `kind`,
      row by row. */
  function Edit(addresses: seq<SavedAddress>, user: Id, addressId: Id, kind: AddressKind, f: AddressFields, makeDefault: bool): (r: seq<SavedAddress>)
    ensures |r| == |addresses|
    ensures forall i :: 0 <= i < |r| ==> r[i] == EditRow(addresses[i], user, addressId, kind, f, makeDefault)
  {
    MapSeq(addresses, (a: SavedAddress) => EditRow(a, user, addressId, kind, f, makeDefault))
  }

  predicate Edits(a: SavedAddress, user: Id, addressId: Id)
  {
    a.id == addressId && a.user == user
  }

  /** Same id, owner and type. */
  predicate SameKey(a: SavedAddress, b: SavedAddress)
  {
    a.id == b.id && a.user == b.user && a.kind == b.kind
  }

  predicate Owns(addresses: seq<SavedAddress>, user: Id, addressId: Id)
  {
    exists i :: 0 <= i < |addresses| && addresses[i].id == addressId && addresses[i].user == user
  }

  function FirstOwned(addresses: seq<SavedAddress>, user: Id, addressId: Id): (i: nat)
    requires Owns(addresses, user, addressId)
    ensures i < |addresses| && addresses[i].id == addressId && addresses[i].user == user
  {
    if addresses[0].id == addressId && addresses[0].user == user then 0
    else
      assert Owns(addresses[1..], user, addressId) by {
        var j :| 0 <= j < |addresses| && addresses[j].id == addressId && addresses[j].user == user;
        assert addresses[1..][j - 1] == addresses[j];
      }
      1 + FirstOwned(addresses[1..], user, addressId)
  }

  predicate NotOwnedAddress(user: Id, addressId: Id, a: SavedAddress)
  {
    !(a.id == addressId && a.user == user)
  }

  /** `DELETE /addresses/:id`: removes the caller's row with that id; no
      affected row is a 404. */
  function Delete(db: Db, user: Id, addressId: Id): (s: Step<string>)
    ensures s.result.Err? <==> !Owns(db.addresses, user, addressId)
    ensures s.result.Err? ==> s.db == db && s.result == Err(NotFound("Address not found"))
    ensures s.result.Ok? ==> s.db == db.(addresses := s.db.addresses)
    ensures forall i :: 0 <= i < |s.db.addresses| ==> s.db.addresses[i] in db.addresses && NotOwnedAddress(user, addressId, s.db.addresses[i])
    ensures forall i :: 0 <= i < |db.addresses| && NotOwnedAddress(user, addressId, db.addresses[i]) ==> db.addresses[i] in s.db.addresses
  {
    if !Owns(db.addresses, user, addressId) then Step(Err(NotFound("Address not found")), db)
    else
      var keep := (a: SavedAddress) => NotOwnedAddress(user, addressId, a);
      FilterKeepsEvery(db.addresses, keep);
      Step(Ok("Address deleted successfully"), db.(addresses := Filter(db.addresses, keep)))
  }

  function AddressId(a: SavedAddress): Id
  {
    a.id
  }

  /** The address table's keys: unique ids below the counter, and at most
      one default per (user, type). */
  ghost predicate AddressesWellFormed(db: Db)
  {
    && UniqueBy(db.addresses, AddressId)
    && (forall i :: 0 <= i < |db.addresses| ==> db.addresses[i].id < db.nextAddressId)
    && OneDefault(db.addresses)
  }

  lemma AddPreservesWellFormed(db: Db, user: Id, kind: string, f: AddressFields, isDefault: Option<bool>)
    requires AddressesWellFormed(db)
    ensures AddressesWellFormed(Add(db, user, kind, f, isDefault).db)
  {
    if Add(db, user, kind, f, isDefault).result.Ok? {
      AddShape(db, user, kind, f, isDefault);
      AppendedKeepsWellFormed(db, user, ParseKind(kind).value, f, isDefault == Some(true));
    }
  }

  /** The table after a successful add: the optional un-defaulting, then the
      new row, under the next id. */
  function Appended(db: Db, user: Id, k: AddressKind, f: AddressFields, d: bool): Db
  {
    db.(addresses := (if d then Undefault(db.addresses, user, k) else db.addresses) + [NewRow(db.nextAddressId, user, k, f, d)],
        nextAddressId := db.nextAddressId + 1)
  }

  /** A successful add leaves exactly the appended table. */
  lemma AddShape(db: Db, user: Id, kind: string, f: AddressFields, isDefault: Option<bool>)
    requires Add(db, user, kind, f, isDefault).result.Ok?
    ensures ParseKind(kind).Some?
    ensures Add(db, user, kind, f, isDefault).db == Appended(db, user, ParseKind(kind).value, f, isDefault == Some(true))
  {
  }

  lemma AppendedKeepsWellFormed(db: Db, user: Id, k: AddressKind, f: AddressFields, d: bool)
    requires AddressesWellFormed(db)
    ensures AddressesWellFormed(Appended(db, user, k, f, d))
  {
    var base := if d then Undefault(db.addresses, user, k) else db.addresses;
    AppendKeepsWellFormed(db.addresses, base, NewRow(db.nextAddressId, user, k, f, d), db.nextAddressId, user, k, d);
  }

  /** The insert step of `POST /addresses`, over the table after the
      optional un-defaulting. */
  lemma AppendKeepsWellFormed(table: seq<SavedAddress>, base: seq<SavedAddress>, row: SavedAddress, next: Id, user: Id, kind: AddressKind, d: bool)
    requires UniqueBy(table, AddressId) && OneDefault(table)
    requires forall i :: 0 <= i < |table| ==> table[i].id < next
    requires base == (if d then Undefault(table, user, kind) else table)
    requires row.id == next && row.user == user && row.kind == kind && row.isDefault == d
    ensures UniqueBy(base + [row], AddressId) && OneDefault(base + [row])
    ensures forall i :: 0 <= i < |base + [row]| ==> (base + [row])[i].id < next + 1
  {
    if d {
      var g := (x: SavedAddress) => UnsetIfOf(x, user, kind);
      assert base == MapSeq(table, g);
      UniqueByMapSeq(table, g, AddressId);
    }
    UniqueByAppend(base, row, AddressId);
    var a := base + [row];
    forall i, j | 0 <= i < j < |a|
      ensures NotBothDefault(a[i], a[j])
    {
      if j < |base| {
        assert NotBothDefault(table[i], table[j]);
      }
    }
  }

  lemma UpdatePreservesWellFormed(db: Db, user: Id, addressId: Id, f: AddressFields, isDefault: Option<bool>)
    requires AddressesWellFormed(db)
    ensures AddressesWellFormed(Update(db, user, addressId, f, isDefault).db)
  {
    var s := Update(db, user, addressId, f, isDefault);
    if s.result.Ok? {
      var o := FirstOwned(db.addresses, user, addressId);
      var k := db.addresses[o].kind;
      var d := isDefault == Some(true);
      assert s.db == db.(addresses := Edit(db.addresses, user, addressId, k, f, d));
      EditKeepsWellFormed(db, user, addressId, k, f, d, o);
    }
  }

  /** Editing the owned row `o`, of type `kind`, keeps the table's keys. */
  lemma EditKeepsWellFormed(db: Db, user: Id, addressId: Id, kind: AddressKind, f: AddressFields, makeDefault: bool, o: nat)
    requires AddressesWellFormed(db)
    requires o < |db.addresses| && Edits(db.addresses[o], user, addressId) && db.addresses[o].kind == kind
    ensures AddressesWellFormed(db.(addresses := Edit(db.addresses, user, addressId, kind, f, makeDefault)))
  {
    var rows := db.addresses;
    var a := Edit(rows, user, addressId, kind, f, makeDefault);
    var edit := (x: SavedAddress) => EditRow(x, user, addressId, kind, f, makeDefault);
    assert a == MapSeq(rows, edit);
    UniqueByMapSeq(rows, edit, AddressId);
    forall i, j | 0 <= i < j < |a|
      ensures NotBothDefault(a[i], a[j])
    {
      if Edits(rows[i], user, addressId) {
        UniqueByIndex(rows, AddressId, i, o);
      }
      if Edits(rows[j], user, addressId) {
        UniqueByIndex(rows, AddressId, j, o);
      }
      EditPair(rows[i], rows[j], user, addressId, kind, f, makeDefault);
    }
  }

  /** Of two rows at most one is edited, and that one has type `kind`:
      the edit leaves them not both defaults when they were not before. */
  lemma EditPair(x: SavedAddress, y: SavedAddress, user: Id, addressId: Id, kind: AddressKind, f: AddressFields, makeDefault: bool)
    requires !(Edits(x, user, addressId) && Edits(y, user, addressId))
    requires Edits(x, user, addressId) ==> x.kind == kind
    requires Edits(y, user, addressId) ==> y.kind == kind
    requires NotBothDefault(x, y)
    ensures NotBothDefault(EditRow(x, user, addressId, kind, f, makeDefault), EditRow(y, user, addressId, kind, f, makeDefault))
  {
  }

  lemma DeletePreservesWellFormed(db: Db, user: Id, addressId: Id)
    requires AddressesWellFormed(db)
    ensures AddressesWellFormed(Delete(db, user, addressId).db)
  {
    var s := Delete(db, user, addressId);
    if s.result.Ok? {
      var p := (a: SavedAddress) => NotOwnedAddress(user, addressId, a);
      assert s.db.addresses == Filter(db.addresses, p);
      UniqueByFilter(db.addresses, AddressId, p);
      FilterPairwise(db.addresses, p, NotBothDefault);
    }
  }

  predicate IsDefaultOf(user: Id, a: SavedAddress)
  {
    a.user == user && a.isDefault
  }

  predicate IsOtherOf(user: Id, a: SavedAddress)
  {
    a.user == user && !a.isDefault
  }

  function DefaultOf(user: Id): SavedAddress -> bool
  {
    (a: SavedAddress) => IsDefaultOf(user, a)
  }

  function OtherOf(user: Id): SavedAddress -> bool
  {
    (a: SavedAddress) => IsOtherOf(user, a)
  }

  /** The caller's default rows, newest first. */
  function Defaults(db: Db, user: Id): (r: seq<SavedAddress>)
    ensures forall i :: 0 <= i < |r| ==> r[i] in db.addresses && IsDefaultOf(user, r[i])
  {
    Reverse(Filter(db.addresses, DefaultOf(user)))
  }

  /** The caller's other rows, newest first. */
  function Others(db: Db, user: Id): (r: seq<SavedAddress>)
    ensures forall i :: 0 <= i < |r| ==> r[i] in db.addresses && IsOtherOf(user, r[i])
  {
    Reverse(Filter(db.addresses, OtherOf(user)))
  }

  /** `GET /addresses`: the caller's addresses, `ORDER BY is_default DESC,
      created_at DESC` — defaults first, then newest first within each
      group (rows are inserted in creation order). */
  function List(db: Db, user: Id): (r: seq<SavedAddress>)
    ensures forall i :: 0 <= i < |r| ==> r[i] in db.addresses && r[i].user == user
    ensures forall i, j :: 0 <= i < j < |r| && r[j].isDefault ==> r[i].isDefault
  {
    Defaults(db, user) + Others(db, user)
  }

  /** Within each block the newest address comes first: of two listed
      addresses with the same default flag, the later-listed one was
      created earlier, i.e. sits earlier in the table. */
  lemma ListNewestFirst(db: Db, user: Id, i: nat, j: nat)
    requires i < j < |List(db, user)| && List(db, user)[i].isDefault == List(db, user)[j].isDefault
    ensures exists a, b ::
      (0 <= a < b < |db.addresses| && db.addresses[a] == List(db, user)[j] && db.addresses[b] == List(db, user)[i])
  {
    var a, b := ListPositions(db, user, i, j);
  }

  /** The table positions behind `ListNewestFirst`. */
  lemma ListPositions(db: Db, user: Id, i: nat, j: nat) returns (a: nat, b: nat)
    requires i < j < |List(db, user)| && List(db, user)[i].isDefault == List(db, user)[j].isDefault
    ensures a < b < |db.addresses| && db.addresses[a] == List(db, user)[j] && db.addresses[b] == List(db, user)[i]
  {
    BlocksDiffer(db, user, i, j);
    assert List(db, user) == Reverse(Filter(db.addresses, DefaultOf(user))) + Reverse(Filter(db.addresses, OtherOf(user)));
    a, b := TwoBlocksInOrder(db.addresses, DefaultOf(user), OtherOf(user), i, j);
  }

  /** Two blocks, each a filter of `rows` listed newest first: two entries
      of the same block come from the table in the opposite order. */
  lemma TwoBlocksInOrder<T>(rows: seq<T>, p: T -> bool, q: T -> bool, i: nat, j: nat) returns (a: nat, b: nat)
    requires i < j < |Filter(rows, p)| + |Filter(rows, q)|
    requires i < |Filter(rows, p)| <==> j < |Filter(rows, p)|
    ensures var l := Reverse(Filter(rows, p)) + Reverse(Filter(rows, q));
      a < b < |rows| && rows[a] == l[j] && rows[b] == l[i]
  {
    var d := |Filter(rows, p)|;
    if j < d {
      a, b := BlockInOrder(rows, p, i, j);
    } else {
      a, b := BlockInOrder(rows, q, i - d, j - d);
    }
  }

  /** A listed default and a listed other address differ in their flag. */
  lemma BlocksDiffer(db: Db, user: Id, i: nat, j: nat)
    ensures i < |Defaults(db, user)| <= j < |List(db, user)| ==> List(db, user)[i].isDefault && !List(db, user)[j].isDefault
  {
    var defaults := Defaults(db, user);
    var others := Others(db, user);
    if i < |defaults| <= j < |List(db, user)| {
      assert List(db, user) == defaults + others;
      assert List(db, user)[i] == defaults[i] && List(db, user)[j] == others[j - |defaults|];
    }
  }

  /** In a filtered block listed newest first, a later entry sits earlier
      in the table. */
  lemma BlockInOrder<T>(rows: seq<T>, p: T -> bool, i: nat, j: nat) returns (a: nat, b: nat)
    requires i < j < |Filter(rows, p)|
    ensures a < b < |rows| && rows[a] == Reverse(Filter(rows, p))[j] && rows[b] == Reverse(Filter(rows, p))[i]
  {
    var f := Filter(rows, p);
    a, b := FilterInOrder(rows, p, |f| - 1 - j, |f| - 1 - i);
  }

  /** Every address of the caller is listed. */
  lemma ListComplete(db: Db, user: Id, i: nat)
    requires i < |db.addresses| && db.addresses[i].user == user
    ensures db.addresses[i] in List(db, user)
  {
    var x := db.addresses[i];
    var p := if x.isDefault then DefaultOf(user) else OtherOf(user);
    var part := Filter(db.addresses, p);
    FilterKeeps(db.addresses, p, i);
    var k :| 0 <= k < |part| && part[k] == x;
    assert Reverse(part)[|part| - 1 - k] == x;
    if x.isDefault {
      assert Reverse(part) == Defaults(db, user);
    } else {
      assert Reverse(part) == Others(db, user);
    }
  }
}
