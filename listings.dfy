/** The listing store: the `item` table, validated creation of listings and
    the three read-only queries over it. The owner's username is read from
    the `user` table of the same database. */
module Listings {
  import opened Js
  import Accounts

  /** One row of the `item` table. */
  datatype ItemRow = ItemRow(id: int, owner: int, name: string, description: string, imgLoc: string)

  /** The object literal the queries return; `listerId` is absent (None) in
      the entries `getListings` builds. */
  datatype ListingMetadata = ListingMetadata(listerId: Option<int>, id: int, itemName: string,
                                             itemDescription: string, imgLoc: string,
                                             listerUsername: string, swapList: string)

  /** The fixed value `getMetadata` gives every listing's `swaplist`. */
  const SwapListPlaceholder: string := "Placeholder, Placeholder Second, Placeholder Third"

  /** The message `errorIfEmpty` throws for an empty input named `varName`. */
  function EmptyMessage(varName: string): string {
    varName + " is empty"
  }

  /** `errorIfEmpty`: rejects an empty input with a message naming it. */
  function ErrorIfEmpty(input: string, varName: string): (r: Option<string>)
    ensures r.None? <==> |input| != 0
    ensures r.Some? ==> r.value == EmptyMessage(varName)
  {
    if |input| == 0 then Some(EmptyMessage(varName)) else None
  }

  /** The guards `create` runs, in order, before it inserts. */
  function CreateChecks(userId: JsValue, itemName: string, itemDescription: string,
                        imgLocation: string): seq<Check>
  {
    [ Check(!IsNaN(userId), "non-numeric user_id provided"),
      Check(Display(userId) != "", EmptyMessage("user_id")),
      Check(itemName != "", EmptyMessage("item_name")),
      Check(itemDescription != "", EmptyMessage("item_description")),
      Check(imgLocation != "", EmptyMessage("img_location")) ]
  }

  /** The message `create` rejects with, or None when it inserts; it inserts
      exactly when the owner id has an integer value and no text is empty. */
  function CreateError(userId: JsValue, itemName: string, itemDescription: string,
                       imgLocation: string): (e: Option<string>)
    ensures e.None? <==>
      AsInteger(userId).Some? && itemName != "" && itemDescription != "" && imgLocation != ""
  {
    var checks := CreateChecks(userId, itemName, itemDescription, imgLocation);
    assert |checks| == 5;
    assert (forall i | 0 <= i < |checks| :: checks[i].passes) <==>
      checks[0].passes && checks[1].passes && checks[2].passes && checks[3].passes && checks[4].passes;
    FirstFailure(checks)
  }

  /** A non-numeric owner id is reported before any emptiness; then the first
      empty field in the order user_id, item_name, item_description, img_location. */
  lemma CreateErrorOrder(userId: JsValue, itemName: string, itemDescription: string, imgLocation: string)
    ensures IsNaN(userId) ==>
      CreateError(userId, itemName, itemDescription, imgLocation) == Some("non-numeric user_id provided")
    ensures !IsNaN(userId) && Display(userId) == "" ==>
      CreateError(userId, itemName, itemDescription, imgLocation) == Some(EmptyMessage("user_id"))
    ensures AsInteger(userId).Some? && itemName == "" ==>
      CreateError(userId, itemName, itemDescription, imgLocation) == Some(EmptyMessage("item_name"))
    ensures AsInteger(userId).Some? && itemName != "" && itemDescription == "" ==>
      CreateError(userId, itemName, itemDescription, imgLocation) == Some(EmptyMessage("item_description"))
    ensures AsInteger(userId).Some? && itemName != "" && itemDescription != "" && imgLocation == "" ==>
      CreateError(userId, itemName, itemDescription, imgLocation) == Some(EmptyMessage("img_location"))
  {
    var checks := CreateChecks(userId, itemName, itemDescription, imgLocation);
    if IsNaN(userId) {
      FirstFailureAt(checks, 0);
    } else if Display(userId) == "" {
      FirstFailureAt(checks, 1);
    } else if itemName == "" {
      FirstFailureAt(checks, 2);
    } else if itemDescription == "" {
      FirstFailureAt(checks, 3);
    } else if imgLocation == "" {
      FirstFailureAt(checks, 4);
    }
  }

  /** An empty string is numeric to isNaN, so an empty owner id gets past the
      first guard and is reported as empty; a word is reported as non-numeric. */
  lemma CreateRejectsBadOwner(itemName: string, itemDescription: string, imgLocation: string)
    ensures CreateError(Str(""), itemName, itemDescription, imgLocation) == Some(EmptyMessage("user_id"))
    ensures CreateError(Str("test"), itemName, itemDescription, imgLocation) ==
      Some("non-numeric user_id provided")
  {
    assert !IsIntegerLiteral("test") by { assert !IsDigit("test"[0]); }
    CreateErrorOrder(Str(""), itemName, itemDescription, imgLocation);
    CreateErrorOrder(Str("test"), itemName, itemDescription, imgLocation);
  }

  /** The first row whose id the argument selects. */
  function FindItem(items: seq<ItemRow>, listingId: JsValue): (r: Option<nat>)
    ensures r.None? <==> forall i | 0 <= i < |items| :: !Matches(listingId, items[i].id)
    ensures r.Some? ==> r.value < |items| && Matches(listingId, items[r.value].id)
    ensures r.Some? ==> forall j | 0 <= j < r.value :: !Matches(listingId, items[j].id)
  {
    IndexWhere(items, (row: ItemRow) => Matches(listingId, row.id))
  }

  /** The listing an id selects, if any, has an owner present in the user table. */
  predicate OwnerKnown(items: seq<ItemRow>, users: seq<Accounts.UserRow>, listingId: JsValue) {
    match FindItem(items, listingId)
    case None => true
    case Some(k) => Accounts.UsernameOf(users, items[k].owner).Some?
  }

  /** The not-found message quotes the id as given, between fixed text. */
  function NotFound(listingId: JsValue): (m: string)
    ensures |m| == |Display(listingId)| + 28
    ensures m[..17] == "listing with ID \"" && m[|m| - 11..] == "\" not found"
    ensures m[17..|m| - 11] == Display(listingId)
  {
    "listing with ID \"" + Display(listingId) + "\" not found"
  }

  /** What `getMetadata` resolves to: not found when no row matches the id;
      otherwise the first matching row's fields, its owner's username, and
      the placeholder swap list. */
  function Metadata(items: seq<ItemRow>, users: seq<Accounts.UserRow>, listingId: JsValue)
    : (r: Result<ListingMetadata>)
    requires OwnerKnown(items, users, listingId)
    ensures r.Err? <==> forall i | 0 <= i < |items| :: !Matches(listingId, items[i].id)
    ensures r.Err? ==> r.error == NotFound(listingId)
    ensures r.Ok? ==> exists i | 0 <= i < |items| ::
      Matches(listingId, items[i].id) && r.value.id == items[i].id &&
      r.value.listerId == Some(items[i].owner) && r.value.itemName == items[i].name &&
      r.value.itemDescription == items[i].description && r.value.imgLoc == items[i].imgLoc &&
      Accounts.UsernameOf(users, items[i].owner) == Some(r.value.listerUsername)
    ensures r.Ok? ==> r.value.swapList == SwapListPlaceholder
  {
    match FindItem(items, listingId)
    case None => Err(NotFound(listingId))
    case Some(k) =>
      var row := items[k];
      Ok(ListingMetadata(Some(row.owner), row.id, row.name, row.description, row.imgLoc,
                         Accounts.UsernameOf(users, row.owner).value, SwapListPlaceholder))
  }

  /** Ids -1, '' and 'test' select no listing of a table whose ids are
      positive; the message quotes the id as given ("-1" for the number). */
  lemma MetadataNotFound(items: seq<ItemRow>, users: seq<Accounts.UserRow>)
    requires forall i | 0 <= i < |items| :: items[i].id >= 1
    ensures OwnerKnown(items, users, Num(-1)) && Metadata(items, users, Num(-1)) == Err(NotFound(Num(-1)))
    ensures OwnerKnown(items, users, Str("")) && Metadata(items, users, Str("")) == Err(NotFound(Str("")))
    ensures OwnerKnown(items, users, Str("test")) && Metadata(items, users, Str("test")) == Err(NotFound(Str("test")))
    ensures Display(Num(-1)) == "-1"
  {
  }

  /** In a table whose ids increase, an id that selects row `i` gets exactly
      that row's fields, its owner's username and the placeholder swap list. */
  lemma MetadataOfRow(items: seq<ItemRow>, users: seq<Accounts.UserRow>, i: nat, arg: JsValue)
    requires forall j, k | 0 <= j < k < |items| :: items[j].id < items[k].id
    requires i < |items| && Matches(arg, items[i].id)
    requires Accounts.UsernameOf(users, items[i].owner).Some?
    ensures OwnerKnown(items, users, arg)
    ensures Metadata(items, users, arg) ==
      Ok(ListingMetadata(Some(items[i].owner), items[i].id, items[i].name, items[i].description,
                         items[i].imgLoc, Accounts.UsernameOf(users, items[i].owner).value,
                         SwapListPlaceholder))
  {
    var p := (r: ItemRow) => Matches(arg, r.id);
    assert p(items[i]);
    var k := IndexWhere(items, p);
    assert k.value == i by {
      assert p(items[k.value]);
    }
  }

  /** Round trip: the row `create` appends is what `getMetadata` reports for
      the returned id, whether it is passed back as a number or as its
      decimal string. */
  lemma CreateThenMetadata(items: seq<ItemRow>, users: seq<Accounts.UserRow>, row: ItemRow, arg: JsValue)
    requires forall j, k | 0 <= j < k < |items| :: items[j].id < items[k].id
    requires forall j | 0 <= j < |items| :: items[j].id < row.id
    requires Accounts.UsernameOf(users, row.owner).Some?
    requires arg == Num(row.id) || arg == Str(IntToString(row.id))
    ensures OwnerKnown(items + [row], users, arg)
    ensures Metadata(items + [row], users, arg) ==
      Ok(ListingMetadata(Some(row.owner), row.id, row.name, row.description, row.imgLoc,
                         Accounts.UsernameOf(users, row.owner).value, SwapListPlaceholder))
  {
    var items' := items + [row];
    MatchesExactly(row.id, row.id);
    assert items'[|items|] == row;
    MetadataOfRow(items', users, |items|, arg);
  }

  /** The entry `getListings` builds for a row: owner and swap list withheld. */
  predicate IsSummaryOf(m: ListingMetadata, row: ItemRow)
    ensures IsSummaryOf(m, row) <==>
      m == ListingMetadata(None, row.id, row.name, row.description, row.imgLoc, "", "")
  {
    m.listerId.None? && m.id == row.id && m.itemName == row.name &&
    m.itemDescription == row.description && m.imgLoc == row.imgLoc &&
    m.listerUsername == "" && m.swapList == ""
  }

  /** The names of the rows owned by `owner`, in table order. */
  function NamesOwnedBy(items: seq<ItemRow>, owner: int): (r: seq<string>)
    ensures |r| <= |items|
    ensures r == [] <==> forall i | 0 <= i < |items| :: items[i].owner != owner
    ensures forall n :: n in r <==> exists i | 0 <= i < |items| :: items[i].owner == owner && items[i].name == n
  {
    if items == [] then []
    else
      var last := items[|items| - 1];
      var init := items[..|items| - 1];
      var r := NamesOwnedBy(init, owner) + (if last.owner == owner then [last.name] else []);
      assert forall i | 0 <= i < |init| :: init[i] == items[i];
      r
  }

  /** Appending a row adds its name at the end of its owner's names and
      leaves every other user's names as they were. */
  lemma CreateThenNames(items: seq<ItemRow>, row: ItemRow, owner: int)
    ensures NamesOwnedBy(items + [row], owner) ==
      NamesOwnedBy(items, owner) + (if row.owner == owner then [row.name] else [])
  {
  }

  /** The `item` table behind one database handle. */
  class Listing {
    var items: seq<ItemRow>
    /** The next AUTOINCREMENT id. */
    var nextId: int
    /** The `user` table of the same database, only ever read here. */
    const accounts: Accounts.User

    /** Ids are positive, increase along the table and stay below `nextId`. */
    ghost predicate Valid()
      reads this
    {
      1 <= nextId &&
      (forall i | 0 <= i < |items| :: 1 <= items[i].id < nextId) &&
      (forall i, j | 0 <= i < j < |items| :: items[i].id < items[j].id)
    }

    constructor (accounts: Accounts.User)
      ensures Valid() && items == [] && nextId == 1 && this.accounts == accounts
    {
      items := [];
      nextId := 1;
      this.accounts := accounts;
    }

    /** The guards `create` runs before it inserts, in order: a non-numeric
        owner id, then each empty input, reported as `errorIfEmpty` words it. */
    method CheckCreate(userId: JsValue, itemName: string, itemDescription: string, imgLocation: string)
      returns (e: Option<string>)
      ensures e == CreateError(userId, itemName, itemDescription, imgLocation)
    {
      ghost var checks := CreateChecks(userId, itemName, itemDescription, imgLocation);
      if IsNaN(userId) {
        e := Some("non-numeric user_id provided");
        assert e == CreateError(userId, itemName, itemDescription, imgLocation) by { FirstFailureAt(checks, 0); }
        return;
      }
      e := ErrorIfEmpty(Display(userId), "user_id");
      if e.Some? {
        assert e == CreateError(userId, itemName, itemDescription, imgLocation) by {
          assert Display(userId) == "";
          FirstFailureAt(checks, 1);
        }
        return;
      }
      e := ErrorIfEmpty(itemName, "item_name");
      if e.Some? {
        assert e == CreateError(userId, itemName, itemDescription, imgLocation) by {
          assert itemName == "";
          FirstFailureAt(checks, 2);
        }
        return;
      }
      e := ErrorIfEmpty(itemDescription, "item_description");
      if e.Some? {
        assert e == CreateError(userId, itemName, itemDescription, imgLocation) by {
          assert itemDescription == "";
          FirstFailureAt(checks, 3);
        }
        return;
      }
      e := ErrorIfEmpty(imgLocation, "img_location");
      if e.Some? {
        assert e == CreateError(userId, itemName, itemDescription, imgLocation) by {
          assert imgLocation == "";
          FirstFailureAt(checks, 4);
        }
        return;
      }
    }

    /** Creates a listing and returns its new id: the guards in order, then
        one insert. A rejected call leaves the table as it was. */
    method Create(userId: JsValue, itemName: string, itemDescription: string, imgLocation: string)
      returns (r: Result<int>)
      requires Valid()
      modifies this
      ensures Valid()
      ensures r.Err? <==> CreateError(userId, itemName, itemDescription, imgLocation).Some?
      ensures r.Err? ==> Some(r.error) == CreateError(userId, itemName, itemDescription, imgLocation)
      ensures r.Err? ==> items == old(items) && nextId == old(nextId)
      ensures r.Ok? ==> r.value == old(nextId) && nextId == old(nextId) + 1
      ensures r.Ok? ==> AsInteger(userId).Some?
      ensures r.Ok? ==>
        items == old(items) + [ItemRow(r.value, AsInteger(userId).value, itemName, itemDescription, imgLocation)]
      ensures r.Ok? ==> forall i | 0 <= i < |old(items)| :: old(items)[i].id < r.value
    {
      var e := CheckCreate(userId, itemName, itemDescription, imgLocation);
      if e.Some? {
        return Err(e.value);
      }
      var id := nextId;
      items := items + [ItemRow(id, AsInteger(userId).value, itemName, itemDescription, imgLocation)];
      nextId := nextId + 1;
      return Ok(id);
    }

    /** Looks up one listing by id and adds its owner's username and the
        placeholder swap list. */
    method GetMetadata(listingId: JsValue) returns (r: Result<ListingMetadata>)
      requires OwnerKnown(items, accounts.rows, listingId)
      ensures r == Metadata(items, accounts.rows, listingId)
    {
      var found := FindItem(items, listingId);
      if found.None? {
        return Err("listing with ID \"" + Display(listingId) + "\" not found");
      }
      var record := items[found.value];
      var lister := record.owner;
      var item := ListingMetadata(Some(lister), record.id, record.name, record.description,
                                  record.imgLoc, "", "");
      var usernameRecord := Accounts.UsernameOf(accounts.rows, lister);
      item := item.(listerUsername := usernameRecord.value);
      item := item.(swapList := SwapListPlaceholder);
      return Ok(item);
    }

    /** Every listing in table order, with owner and swap list withheld;
        rejected when the table is empty. */
    method GetListings() returns (r: Result<seq<ListingMetadata>>)
      ensures r.Err? <==> items == []
      ensures r.Err? ==> r.error == "no listings found"
      ensures r.Ok? ==> |r.value| == |items|
      ensures r.Ok? ==> forall i | 0 <= i < |items| :: IsSummaryOf(r.value[i], items[i])
    {
      if |items| == 0 {
        return Err("no listings found");
      }
      var rows := items;
      var results: seq<ListingMetadata> := [];
      for i := 0 to |rows|
        invariant |results| == i
        invariant forall j | 0 <= j < i :: IsSummaryOf(results[j], rows[j])
      {
        var item := ListingMetadata(None, rows[i].id, rows[i].name, rows[i].description,
                                    rows[i].imgLoc, "", "");
        results := results + [item];
      }
      return Ok(results);
    }

    /** The names of one user's listings: the id must be non-empty, then
        numeric; a user with no listings gets the empty sequence. */
    method GetListingNamesFromUserId(userId: JsValue) returns (r: Result<seq<string>>)
      ensures Display(userId) == "" ==> r == Err(EmptyMessage("user_id"))
      ensures Display(userId) != "" && IsNaN(userId) ==> r == Err("non-numeric user id provided")
      ensures r.Ok? <==> AsInteger(userId).Some?
      ensures r.Ok? ==> r.value == NamesOwnedBy(items, AsInteger(userId).value)
    {
      var e := ErrorIfEmpty(Display(userId), "user_id");
      if e.Some? {
        assert Display(userId) == "";
        return Err(e.value);
      }
      if IsNaN(userId) {
        return Err("non-numeric user id provided");
      }
      var names := NamesFor(AsInteger(userId).value);
      return Ok(names);
    }

    /** The count query, then the loop collecting each owned row's name. */
    method NamesFor(owner: int) returns (results: seq<string>)
      ensures results == NamesOwnedBy(items, owner)
    {
      if CountWhere(items, (row: ItemRow) => row.owner == owner) == 0 {
        return [];
      }
      var rows := items;
      results := [];
      for i := 0 to |rows|
        invariant results == NamesOwnedBy(rows[..i], owner)
      {
        assert rows[..i + 1][..i] == rows[..i];
        if rows[i].owner == owner {
          results := results + [rows[i].name];
        }
      }
      assert rows[..|rows|] == rows;
    }
  }

  /** A listing created for a registered owner and then viewed by the id
      `create` returned shows the values it was created with. */
  method CreateThenView(store: Listing, userId: JsValue, itemName: string, itemDescription: string,
                        imgLocation: string) returns (r: Result<ListingMetadata>)
    requires store.Valid()
    requires AsInteger(userId).Some? ==>
      Accounts.UsernameOf(store.accounts.rows, AsInteger(userId).value).Some?
    modifies store
    ensures store.Valid()
    ensures r.Ok? <==> CreateError(userId, itemName, itemDescription, imgLocation).None?
    ensures r.Err? ==> Some(r.error) == CreateError(userId, itemName, itemDescription, imgLocation)
    ensures r.Ok? ==>
      r.value.listerId == AsInteger(userId) && r.value.id == old(store.nextId) &&
      r.value.itemName == itemName && r.value.itemDescription == itemDescription &&
      r.value.imgLoc == imgLocation && r.value.swapList == SwapListPlaceholder &&
      Some(r.value.listerUsername) == Accounts.UsernameOf(store.accounts.rows, AsInteger(userId).value)
  {
    var created := store.Create(userId, itemName, itemDescription, imgLocation);
    if created.Err? {
      return Err(created.error);
    }
    var row := ItemRow(created.value, AsInteger(userId).value, itemName, itemDescription, imgLocation);
    CreateThenMetadata(old(store.items), store.accounts.rows, row, Num(created.value));
    r := store.GetMetadata(Num(created.value));
  }
}
