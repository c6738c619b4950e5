/** The administrator's dashboard: the create form's check, the local list
    updates after the server has answered, and the statistics cards. The
    server's answers are parameters. */
module AdminDashboard {
  import opened Wrappers
  import opened Text
  import opened Seqs

  /** A catalogue entry as the page holds it, keyed by its `_id`. */
  datatype AdminItem = AdminItem(id: nat, name: string, price: int, quantityAvailable: int, isMenuOfTheDay: bool)

  /** The create form's text fields. */
  datatype Form = Form(name: string, price: string, quantityAvailable: string, description: string,
                       category: string, cookingTime: string)

  const EmptyForm: Form := Form("", "", "", "", "", "")

  /** `!name || !price || !quantityAvailable || !cookingTime`: description and
      category may be left empty. */
  predicate FormComplete(f: Form) {
    f.name != "" && f.price != "" && f.quantityAvailable != "" && f.cookingTime != ""
  }

  /** `prev.map(it => it._id === id ? data : it)`. */
  function ReplaceById(items: seq<AdminItem>, id: nat, data: AdminItem): (r: seq<AdminItem>)
    ensures |r| == |items|
    ensures forall i :: 0 <= i < |items| && items[i].id != id ==> r[i] == items[i]
    ensures forall i :: 0 <= i < |items| && items[i].id == id ==> r[i] == data
  {
    seq(|items|, i requires 0 <= i < |items| => if items[i].id == id then data else items[i])
  }

  /** `prev.map(it => it._id !== id ? { ...it, isMenuOfTheDay: false } : it)`. */
  function UnflagOthers(items: seq<AdminItem>, id: nat): (r: seq<AdminItem>)
    ensures |r| == |items|
    ensures forall i :: 0 <= i < |items| && items[i].id != id ==> r[i] == items[i].(isMenuOfTheDay := false)
    ensures forall i :: 0 <= i < |items| && items[i].id == id ==> r[i] == items[i]
  {
    seq(|items|, i requires 0 <= i < |items| => if items[i].id != id then items[i].(isMenuOfTheDay := false) else items[i])
  }

  /** `prev.filter(it => it._id !== id)`. */
  function RemoveById(items: seq<AdminItem>, id: nat): (r: seq<AdminItem>)
    ensures forall i :: 0 <= i < |r| ==> r[i].id != id && r[i] in items
    ensures forall i :: 0 <= i < |items| && items[i].id != id ==> items[i] in r
    ensures IsSubsequence(r, items)
  {
    FilterIsSubsequence(items, (it: AdminItem) => it.id != id);
    Filter(items, (it: AdminItem) => it.id != id)
  }

  /** The list after a toggle: the item with the toggled id replaced by the
      server's copy and, when that copy is flagged, every other item unflagged. */
  function AfterToggle(items: seq<AdminItem>, id: nat, data: AdminItem): seq<AdminItem> {
    var replaced := ReplaceById(items, id, data);
    if data.isMenuOfTheDay then UnflagOthers(replaced, id) else replaced
  }

  predicate UniqueIds(items: seq<AdminItem>) {
    forall i, j :: 0 <= i < j < |items| ==> items[i].id != items[j].id
  }

  predicate Flagged(it: AdminItem) {
    it.isMenuOfTheDay
  }

  predicate LowStock(it: AdminItem) {
    it.quantityAvailable < 10
  }

  /** After a toggle whose answer is flagged and carries the toggled id, only
      that id is flagged in the list; with distinct ids, at most one item is. */
  lemma ToggleLeavesOneFlagged(items: seq<AdminItem>, id: nat, data: AdminItem)
    requires data.isMenuOfTheDay && data.id == id
    ensures var r := AfterToggle(items, id, data);
            && |r| == |items|
            && (forall i :: 0 <= i < |r| && r[i].isMenuOfTheDay ==> r[i].id == id)
            && (UniqueIds(items) ==> Count(r, Flagged) <= 1)
  {
    var r := AfterToggle(items, id, data);
    var replaced := ReplaceById(items, id, data);
    assert forall i :: 0 <= i < |r| ==> r[i].id == items[i].id;
    if UniqueIds(items) {
      CountAtMostOne(r, Flagged);
    }
  }

  /** A toggle that unflags leaves every other item as it was. */
  lemma ToggleOffTouchesOnlyItem(items: seq<AdminItem>, id: nat, data: AdminItem)
    requires !data.isMenuOfTheDay
    ensures var r := AfterToggle(items, id, data);
            forall i :: 0 <= i < |items| ==> r[i] == if items[i].id == id then data else items[i]
  {
  }

  datatype Stats = Stats(totalItems: nat, menuOfTheDay: nat, lowStock: nat, totalValue: int)

  /** `items.reduce((sum, item) => sum + item.price * item.quantityAvailable, 0)`. */
  function TotalValue(items: seq<AdminItem>): int {
    if items == [] then 0
    else TotalValue(items[..|items| - 1]) + items[|items| - 1].price * items[|items| - 1].quantityAvailable
  }

  lemma {:induction false} TotalValueNonNegative(items: seq<AdminItem>)
    ensures (forall i :: 0 <= i < |items| ==> items[i].price >= 0 && items[i].quantityAvailable >= 0) ==>
      TotalValue(items) >= 0
  {
    if items != [] {
      TotalValueNonNegative(items[..|items| - 1]);
    }
  }

  /** The statistics cards. */
  function DashboardStats(items: seq<AdminItem>): (s: Stats)
    ensures s.totalItems == |items|
    ensures s.menuOfTheDay <= s.totalItems && s.lowStock <= s.totalItems
    ensures s.menuOfTheDay == Count(items, Flagged) && s.lowStock == Count(items, LowStock)
    ensures (forall i :: 0 <= i < |items| ==> items[i].price >= 0 && items[i].quantityAvailable >= 0) ==> s.totalValue >= 0
  {
    TotalValueNonNegative(items);
    Stats(|items|, Count(items, Flagged), Count(items, LowStock), TotalValue(items))
  }

  /** The page's state. */
  class AdminPage {
    var items: seq<AdminItem>
    var form: Form
    var error: string

    constructor ()
      ensures items == [] && form == EmptyForm && error == ""
    {
      items := [];
      form := EmptyForm;
      error := "";
    }

    /** `handleCreate`: an incomplete form only sets the error and sends
        nothing; a created item goes to the top of the list and clears the form.
        Returns whether a request was sent. */
    method HandleCreate(reply: Result<AdminItem, Option<string>>) returns (sent: bool)
      modifies this
      ensures sent <==> FormComplete(old(form))
      ensures !sent ==> error == "All required fields must be filled" && items == old(items) && form == old(form)
      ensures sent && reply.Ok? ==> items == [reply.value] + old(items) && form == EmptyForm && error == ""
      ensures sent && reply.Err? ==> items == old(items) && form == old(form) && error == MessageOr(reply.error, "Failed to create item")
    {
      error := "";
      if form.name == "" || form.price == "" || form.quantityAvailable == "" || form.cookingTime == "" {
        error := "All required fields must be filled";
        return false;
      }
      sent := true;
      if reply.Ok? {
        items := [reply.value] + items;
        form := EmptyForm;
      } else {
        error := MessageOr(reply.error, "Failed to create item");
      }
    }

    /** `saveEdit(id)`: the server's copy replaces only the item with that id. */
    method SaveEdit(id: nat, reply: Result<AdminItem, Option<string>>)
      modifies this
      ensures reply.Ok? ==> items == ReplaceById(old(items), id, reply.value) && error == old(error)
      ensures reply.Err? ==> items == old(items) && error == MessageOr(reply.error, "Failed to update item")
      ensures form == old(form)
    {
      if reply.Ok? {
        items := ReplaceById(items, id, reply.value);
      } else {
        error := MessageOr(reply.error, "Failed to update item");
      }
    }

    /** `removeItem(id)` once confirmed: the items with that id leave the list. */
    method RemoveItem(id: nat, reply: Result<(), Option<string>>)
      modifies this
      ensures reply.Ok? ==> items == RemoveById(old(items), id) && error == old(error)
      ensures reply.Err? ==> items == old(items) && error == MessageOr(reply.error, "Failed to delete item")
      ensures form == old(form)
    {
      if reply.Ok? {
        items := RemoveById(items, id);
      } else {
        error := MessageOr(reply.error, "Failed to delete item");
      }
    }

    /** `handleToggleMenu(id)`: replace, then unflag the others when the
        answer is flagged; distinct ids then leave at most one flagged item. */
    method HandleToggleMenu(id: nat, reply: Result<AdminItem, Option<string>>)
      modifies this
      ensures reply.Ok? ==> items == AfterToggle(old(items), id, reply.value) && error == ""
      ensures reply.Ok? && reply.value.isMenuOfTheDay && reply.value.id == id && UniqueIds(old(items)) ==>
        Count(items, Flagged) <= 1
      ensures reply.Err? ==> items == old(items) && error == MessageOr(reply.error, "Failed to toggle menu status")
      ensures form == old(form)
    {
      if reply.Err? {
        error := MessageOr(reply.error, "Failed to toggle menu status");
        return;
      }
      var data := reply.value;
      items := ReplaceById(items, id, data);
      if data.isMenuOfTheDay {
        items := UnflagOthers(items, id);
      }
      error := "";
      if data.isMenuOfTheDay && data.id == id {
        ToggleLeavesOneFlagged(old(items), id, data);
      }
    }
  }
}
