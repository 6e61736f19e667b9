/**
 * The events page: the per-event "collected" figure, the payment-option
 * checkboxes, the create/edit form, the type-"delete" confirmation and the
 * copyable payment link. Firestore reads are the `payments` input; Firestore
 * writes are returned as `StoreWrite` values.
 */
module EventsPage {
  import opened FundTypes
  import opened Ledger

  /** The class id the page hard-codes. */
  const ClassId: string := "class-1"

  /** The text the delete dialog asks the user to type. */
  const DeleteWord: string := "delete"

  // ---------------------------------------------------------------------------
  // Collected amount per event

  predicate PaidFor(p: Payment, eventId: string)
  {
    p.eventId == eventId && p.status == Paid
  }

  /** `payments.filter(p => p.eventId === eventId && p.status === 'Paid')`. */
  function PaidForEvent(ps: seq<Payment>, eventId: string): (r: seq<Payment>)
    ensures forall p :: p in r <==> p in ps && PaidFor(p, eventId)
    ensures |r| <= |ps|
  {
    if ps == [] then []
    else
      var last := ps[|ps| - 1];
      PaidForEvent(ps[..|ps| - 1], eventId) + (if PaidFor(last, eventId) then [last] else [])
  }

  lemma {:induction false} PaidForEventAppend(a: seq<Payment>, b: seq<Payment>, eventId: string)
    decreases |b|
    ensures PaidForEvent(a + b, eventId) == PaidForEvent(a, eventId) + PaidForEvent(b, eventId)
  {
    if b == [] {
      assert a + b == a;
    } else {
      var n := |b| - 1;
      assert (a + b)[..|a + b| - 1] == a + b[..n];
      PaidForEventAppend(a, b[..n], eventId);
    }
  }

  /** getCollectedAmountForEvent: 0 while payments are not loaded. */
  function CollectedForEvent(payments: Option<seq<Payment>>, eventId: string): (r: int)
    ensures payments.None? ==> r == 0
    ensures payments.Some? && payments.value == [] ==> r == 0
  {
    match payments
    case None => 0
    case Some(ps) => SumAmounts(PaidForEvent(ps, eventId))
  }

  /** One more payment adds its amount exactly when it is a Paid payment of this event. */
  lemma {:induction false} CollectedStep(ps: seq<Payment>, p: Payment, eventId: string)
    ensures CollectedForEvent(Some(ps + [p]), eventId)
         == CollectedForEvent(Some(ps), eventId) + (if PaidFor(p, eventId) then p.amount else 0)
  {
    PaidForEventAppend(ps, [p], eventId);
    assert [p][..0] == [];
    SumAmountsAppend(PaidForEvent(ps, eventId), PaidForEvent([p], eventId));
  }

  /** A payment of another event, or with any status but Paid, contributes nothing wherever it sits. */
  lemma {:induction false} CollectedIgnoresOthers(a: seq<Payment>, p: Payment, b: seq<Payment>, eventId: string)
    requires !PaidFor(p, eventId)
    ensures CollectedForEvent(Some(a + [p] + b), eventId) == CollectedForEvent(Some(a + b), eventId)
  {
    assert [p][..0] == [];
    assert PaidForEvent([p], eventId) == [];
    assert a + [p] + b == (a + [p]) + b;
    PaidForEventAppend(a + [p], b, eventId);
    PaidForEventAppend(a, [p], eventId);
    PaidForEventAppend(a, b, eventId);
    assert PaidForEvent(a + [p] + b, eventId) == PaidForEvent(a + b, eventId);
  }

  // ---------------------------------------------------------------------------
  // Payment-option checkboxes

  /** `prev.filter(item => item !== option)`. */
  function WithoutOption(opts: seq<PaymentOption>, o: PaymentOption): (r: seq<PaymentOption>)
    ensures forall x :: x in r <==> x in opts && x != o
    ensures o !in opts ==> r == opts
  {
    if opts == [] then []
    else
      var last := opts[|opts| - 1];
      WithoutOption(opts[..|opts| - 1], o) + (if last == o then [] else [last])
  }

  /** handlePaymentOptionChange: remove every occurrence if present, else append at the end. */
  function Toggled(opts: seq<PaymentOption>, o: PaymentOption): (r: seq<PaymentOption>)
    ensures o in opts ==> o !in r && forall x :: x != o ==> (x in r <==> x in opts)
    ensures o !in opts ==> |r| == |opts| + 1 && r[..|opts|] == opts && r[|opts|] == o
  {
    if o in opts then WithoutOption(opts, o) else opts + [o]
  }

  /** Ticking an unticked option and unticking it again gives back the very same list. */
  lemma {:induction false} ToggleTwiceAbsent(opts: seq<PaymentOption>, o: PaymentOption)
    requires o !in opts
    ensures Toggled(Toggled(opts, o), o) == opts
  {
    var once := opts + [o];
    assert once[..|once| - 1] == opts;
    assert WithoutOption(once, o) == WithoutOption(opts, o);
  }

  /** Unticking a ticked option and ticking it again restores membership; the option moves to the end. */
  lemma ToggleTwicePresent(opts: seq<PaymentOption>, o: PaymentOption)
    requires o in opts
    ensures forall x :: x in Toggled(Toggled(opts, o), o) <==> x in opts
    ensures Toggled(Toggled(opts, o), o) == WithoutOption(opts, o) + [o]
  {
  }

  predicate Distinct(opts: seq<PaymentOption>)
  {
    forall i, j :: 0 <= i < j < |opts| ==> opts[i] != opts[j]
  }

  lemma {:induction false} WithoutOptionDistinct(opts: seq<PaymentOption>, o: PaymentOption)
    requires Distinct(opts)
    ensures Distinct(WithoutOption(opts, o))
  {
    if opts != [] {
      var init, last := opts[..|opts| - 1], opts[|opts| - 1];
      assert Distinct(init);
      WithoutOptionDistinct(init, o);
      assert last !in init;
      assert last !in WithoutOption(init, o);
    }
  }

  /** Toggling never creates a duplicate option. */
  lemma ToggledDistinct(opts: seq<PaymentOption>, o: PaymentOption)
    requires Distinct(opts)
    ensures Distinct(Toggled(opts, o))
  {
    if o in opts {
      WithoutOptionDistinct(opts, o);
    }
  }

  // ---------------------------------------------------------------------------
  // Saving the form

  /** The fields handleSaveEvent writes in both the create and the update case. */
  datatype EventData = EventData(
    name: string,
    description: string,
    cost: int,
    deadline: string,
    paymentOptions: seq<PaymentOption>,
    qrCodeUrl: string,
    category: Category)

  /** The Firestore write a save issues. */
  datatype StoreWrite =
    | NoWrite
    | MergeEvent(id: string, data: EventData)
    | AddEvent(data: EventData, totalCollected: int, totalPending: int)

  /** eventData: `qrCodeUrl` is the selected QR code, or '' when none is selected. */
  function FormEventData(name: string, description: string, cost: int, deadline: string,
                         options: seq<PaymentOption>, selectedQr: Option<string>,
                         category: Category): (d: EventData)
    ensures selectedQr.None? ==> d.qrCodeUrl == ""
    ensures selectedQr.Some? ==> d.qrCodeUrl == selectedQr.value
    ensures d.paymentOptions == options && d.category == category && d.cost == cost
  {
    EventData(name, description, cost, deadline, options, selectedQr.GetOr(""), category)
  }

  /** Update the event being edited, or create a new one whose totals start at zero. */
  function SaveWrite(selectedEvent: Option<Event>, d: EventData): (w: StoreWrite)
    ensures selectedEvent.Some? ==> w == MergeEvent(selectedEvent.value.id, d)
    ensures selectedEvent.None? ==> w.AddEvent? && w.data == d && w.totalCollected == 0 && w.totalPending == 0
  {
    match selectedEvent
    case Some(e) => MergeEvent(e.id, d)
    case None => AddEvent(d, 0, 0)
  }

  /** What a merge-write does to the stored event: the form's fields replace the old ones. */
  function ApplyMerge(e: Event, d: EventData): (r: Event)
    ensures r.id == e.id && r.totalCollected == e.totalCollected && r.totalPending == e.totalPending
    ensures r.name == d.name && r.description == d.description && r.cost == d.cost && r.deadline == d.deadline
    ensures r.paymentOptions == d.paymentOptions && r.qrCodeUrl == Some(d.qrCodeUrl) && r.category == d.category
  {
    e.(name := d.name, description := d.description, cost := d.cost, deadline := d.deadline,
       paymentOptions := d.paymentOptions, qrCodeUrl := Some(d.qrCodeUrl), category := d.category)
  }

  /**
   * Opening an event for edit and saving it untouched writes the event back
   * unchanged, except that a missing QR code URL is stored as ''.
   */
  lemma EditSaveRoundTrip(e: Event)
    ensures var d := FormEventData(e.name, e.description, e.cost, e.deadline,
                                   e.paymentOptions, e.qrCodeUrl, e.category);
            SaveWrite(Some(e), d) == MergeEvent(e.id, d) &&
            ApplyMerge(e, d) == e.(qrCodeUrl := Some(e.qrCodeUrl.GetOr("")))
  {
  }

  // ---------------------------------------------------------------------------
  // Payment link

  /** handleCopyLink: `${origin}/pay/${eventId}?classId=${classId}`. */
  function PaymentLink(origin: string, eventId: string, classId: string): (link: string)
    ensures origin <= link
    ensures |link| == |origin| + 5 + |eventId| + 9 + |classId|
  {
    origin + "/pay/" + eventId + "?classId=" + classId
  }

  /**
   * The link handleCopyLink copies for an event: the page always passes its
   * own class id. Both ids can be read back whenever the event id has no '?'.
   */
  function CopiedLink(origin: string, eventId: string): (link: string)
    ensures '?' !in eventId ==> ParsePaymentLink(origin, link) == Some((eventId, ClassId))
  {
    if '?' in eventId then PaymentLink(origin, eventId, ClassId)
    else PaymentLinkRoundTrip(origin, eventId, ClassId); PaymentLink(origin, eventId, ClassId)
  }

  /** The first position of `c` in `s`. */
  function IndexOf(s: string, c: char): (r: Option<nat>)
    ensures r.None? ==> c !in s
    ensures r.Some? ==> r.value < |s| && s[r.value] == c && c !in s[..r.value]
  {
    if s == [] then None
    else if s[0] == c then Some(0)
    else
      match IndexOf(s[1..], c)
      case None => None
      case Some(k) => assert s[1..][..k] == s[1..k + 1]; Some(k + 1)
  }

  /** Reads the event id and class id back out of a payment link for `origin`. */
  function ParsePaymentLink(origin: string, link: string): Option<(string, string)>
  {
    if !(origin <= link) then None
    else
      var path := link[|origin|..];
      if !("/pay/" <= path) then None
      else
        var rest := path[5..];
        match IndexOf(rest, '?')
        case None => None
        case Some(k) =>
          var query := rest[k + 1..];
          if !("classId=" <= query) then None
          else Some((rest[..k], query[8..]))
  }

  lemma IndexOfFirst(a: string, c: char, t: string)
    requires c !in a
    ensures IndexOf(a + [c] + t, c) == Some(|a|)
  {
    var s := a + [c] + t;
    assert s[|a|] == c;
    assert forall i :: 0 <= i < |a| ==> s[i] == a[i];
  }

  /** The link carries both ids recoverably whenever the event id has no '?'. */
  lemma PaymentLinkRoundTrip(origin: string, eventId: string, classId: string)
    requires '?' !in eventId
    ensures ParsePaymentLink(origin, PaymentLink(origin, eventId, classId)) == Some((eventId, classId))
  {
    var query := "classId=" + classId;
    var rest := eventId + ['?'] + query;
    var path := "/pay/" + rest;
    var link := PaymentLink(origin, eventId, classId);
    assert link == origin + path;
    assert link[|origin|..] == path;
    assert path[5..] == rest;
    IndexOfFirst(eventId, '?', query);
    assert rest[..|eventId|] == eventId;
    assert rest[|eventId| + 1..] == query;
    assert query[8..] == classId;
  }

  // ---------------------------------------------------------------------------
  // Delete confirmation

  /** The "Delete Event" button is enabled only when the typed text is exactly "delete". */
  predicate DeleteEnabled(confirmation: string)
  {
    confirmation == DeleteWord
  }

  // ---------------------------------------------------------------------------
  // The page's form state

  class EventForm {
    var open: bool
    var selectedEvent: Option<Event>
    var paymentOptions: seq<PaymentOption>
    var selectedQrCode: Option<string>
    var category: Category
    var deleteDialogOpen: bool
    var eventToDelete: Option<Event>
    var deleteConfirmation: string

    /** The useState initial values. */
    constructor ()
      ensures !open && selectedEvent == None && paymentOptions == [] && selectedQrCode == None
      ensures category == Normal && !deleteDialogOpen && eventToDelete == None && deleteConfirmation == ""
    {
      open := false;
      selectedEvent := None;
      paymentOptions := [];
      selectedQrCode := None;
      category := Normal;
      deleteDialogOpen := false;
      eventToDelete := None;
      deleteConfirmation := "";
    }

    /** handleCreateNew: an empty form offering Razorpay, no QR code, category Normal. */
    method CreateNew()
      modifies this
      ensures selectedEvent == None && paymentOptions == [Razorpay] && selectedQrCode == None
      ensures category == Normal && open
      ensures deleteDialogOpen == old(deleteDialogOpen) && eventToDelete == old(eventToDelete)
      ensures deleteConfirmation == old(deleteConfirmation)
    {
      selectedEvent := None;
      paymentOptions := [Razorpay];
      selectedQrCode := None;
      category := Normal;
      open := true;
    }

    /** handleEdit: the form takes the event's options, QR code and category. */
    method Edit(e: Event)
      modifies this
      ensures selectedEvent == Some(e) && paymentOptions == e.paymentOptions
      ensures selectedQrCode == e.qrCodeUrl && category == e.category && open
      ensures deleteDialogOpen == old(deleteDialogOpen) && eventToDelete == old(eventToDelete)
      ensures deleteConfirmation == old(deleteConfirmation)
    {
      selectedEvent := Some(e);
      paymentOptions := e.paymentOptions;
      selectedQrCode := e.qrCodeUrl;
      category := e.category;
      open := true;
    }

    /** handlePaymentOptionChange. */
    method TogglePaymentOption(o: PaymentOption)
      modifies this`paymentOptions
      ensures paymentOptions == Toggled(old(paymentOptions), o)
    {
      if o in paymentOptions {
        paymentOptions := WithoutOption(paymentOptions, o);
      } else {
        paymentOptions := paymentOptions + [o];
      }
    }

    /** The category select. */
    method ChooseCategory(c: Category)
      modifies this`category
      ensures category == c
    {
      category := c;
    }

    /** The QR code select, which offers the URLs of the stored QR codes. */
    method ChooseQrCode(url: string)
      modifies this`selectedQrCode
      ensures selectedQrCode == Some(url)
    {
      selectedQrCode := Some(url);
    }

    /**
     * handleSaveEvent: with the store unavailable nothing happens; otherwise
     * the form is written as an update or a creation and the dialog closes.
     */
    method Save(storeReady: bool, name: string, description: string, cost: int, deadline: string)
      returns (w: StoreWrite)
      modifies this`open
      ensures !storeReady ==> w == NoWrite && open == old(open)
      ensures storeReady ==> !open && w == SaveWrite(selectedEvent,
        FormEventData(name, description, cost, deadline, paymentOptions, selectedQrCode, category))
    {
      if !storeReady {
        return NoWrite;
      }
      var d := EventData(name, description, cost, deadline, paymentOptions, selectedQrCode.GetOr(""), category);
      if selectedEvent.Some? {
        w := MergeEvent(selectedEvent.value.id, d);
      } else {
        w := AddEvent(d, 0, 0);
      }
      open := false;
    }

    /** openDeleteDialog. */
    method OpenDeleteDialog(e: Event)
      modifies this`eventToDelete, this`deleteDialogOpen
      ensures eventToDelete == Some(e) && deleteDialogOpen
    {
      eventToDelete := Some(e);
      deleteDialogOpen := true;
    }

    /** The confirmation input's onChange. */
    method TypeConfirmation(text: string)
      modifies this`deleteConfirmation
      ensures deleteConfirmation == text
    {
      deleteConfirmation := text;
    }

    /** The Cancel button clears the typed confirmation; the dialog closes. */
    method CancelDelete()
      modifies this`deleteConfirmation, this`deleteDialogOpen
      ensures deleteConfirmation == "" && !deleteDialogOpen
    {
      deleteConfirmation := "";
      deleteDialogOpen := false;
    }

    /**
     * A click on "Delete Event": a disabled button does nothing. An enabled
     * one closes the dialog, and handleDeleteEvent deletes the chosen event
     * and resets the dialog state when the store and an event are there.
     */
    method ConfirmDelete(storeReady: bool) returns (deleted: Option<string>)
      modifies this`deleteDialogOpen, this`eventToDelete, this`deleteConfirmation
      ensures deleted.Some? <==> DeleteEnabled(old(deleteConfirmation)) && storeReady && old(eventToDelete).Some?
      ensures deleted.Some? ==> deleted.value == old(eventToDelete).value.id
      ensures deleted.Some? ==> !deleteDialogOpen && eventToDelete == None && deleteConfirmation == ""
      ensures deleted.None? ==> eventToDelete == old(eventToDelete) && deleteConfirmation == old(deleteConfirmation)
      ensures !DeleteEnabled(old(deleteConfirmation)) ==> deleteDialogOpen == old(deleteDialogOpen)
      ensures DeleteEnabled(old(deleteConfirmation)) ==> !deleteDialogOpen
    {
      if !DeleteEnabled(deleteConfirmation) {
        return None;
      }
      deleteDialogOpen := false;
      if !storeReady || eventToDelete.None? {
        return None;
      }
      deleted := Some(eventToDelete.value.id);
      deleteDialogOpen := false;
      eventToDelete := None;
      deleteConfirmation := "";
    }
  }
}
