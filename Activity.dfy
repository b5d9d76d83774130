/**
 * The main screen: its permission checks, the start-up decisions, and the
 * reload of the conversation list from the SMS content provider.
 */
module Activity {
  import opened Wrappers
  import opened Conversations

  /** The five permissions the app asks for. */
  datatype Permission = ReadSms | SendSms | ReceiveSms | ReadContacts | ReadPhoneState

  const RequiredPermissions: seq<Permission> := [ReadSms, SendSms, ReceiveSms, ReadContacts, ReadPhoneState]

  /** PackageManager.PERMISSION_GRANTED. */
  const PermissionGranted: int := 0

  const PermissionRequestCode: int := 100

  /** The actions the screen's refresh receiver is registered for. */
  const RefreshActions: seq<string> := ["com.example.defaultsmsapp.SMS_RECEIVED", "com.example.defaultsmsapp.MMS_RECEIVED"]

  ghost predicate AllRequiredGranted(granted: set<Permission>)
  {
    forall p :: p in RequiredPermissions ==> p in granted
  }

  ghost predicate AllResultsGranted(grantResults: seq<int>)
  {
    forall i :: 0 <= i < |grantResults| ==> grantResults[i] == PermissionGranted
  }

  /** Checks the required permissions one by one and stops at the first that is missing. */
  method HasAllPermissions(granted: set<Permission>) returns (all: bool)
    ensures all <==> AllRequiredGranted(granted)
  {
    for i := 0 to |RequiredPermissions|
      invariant forall k :: 0 <= k < i ==> RequiredPermissions[k] in granted
    {
      if RequiredPermissions[i] !in granted {
        return false;
      }
    }
    all := true;
  }

  /** The scan of the grant results in onRequestPermissionsResult; true for no results at all. */
  method AllGranted(grantResults: seq<int>) returns (allGranted: bool)
    ensures allGranted <==> AllResultsGranted(grantResults)
    ensures grantResults == [] ==> allGranted
  {
    allGranted := true;
    for i := 0 to |grantResults|
      invariant allGranted
      invariant forall k :: 0 <= k < i ==> grantResults[k] == PermissionGranted
    {
      if grantResults[i] != PermissionGranted {
        allGranted := false;
        break;
      }
    }
  }

  /** What the screen does next. */
  datatype Step =
    | LoadMessages
    | RequestPermissions
    | ShowPermissionDeniedDialog
    | ShowSetDefaultDialog
    | RequestDefaultRole
    | NoStep

  /** The two buttons of the "Set as Default SMS App" dialog. */
  datatype DefaultDialogButton = SetDefault | Cancel

  /** Load the messages when the app holds the SMS role, else ask for it. */
  function CheckDefaultSmsApp(isDefault: bool): (next: Step)
    ensures next == LoadMessages <==> isDefault
    ensures next == LoadMessages || next == ShowSetDefaultDialog
  {
    if !isDefault then ShowSetDefaultDialog else LoadMessages
  }

  /** "Set Default" asks for the role; "Cancel" still loads the existing messages. */
  function OnDefaultDialogButton(button: DefaultDialogButton): (next: Step)
    ensures next == LoadMessages <==> button == Cancel
    ensures next == RequestDefaultRole <==> button == SetDefault
  {
    match button
    case SetDefault => RequestDefaultRole
    case Cancel => LoadMessages
  }

  /** The default-app check followed, when the dialog shows, by the user's button. */
  function DefaultCheckOutcome(isDefault: bool, button: DefaultDialogButton): Step
  {
    var next := CheckDefaultSmsApp(isDefault);
    if next == ShowSetDefaultDialog then OnDefaultDialogButton(button) else next
  }

  /** Messages are loaded unless the app is not the default and the user asks to make it so. */
  lemma DefaultCheckLoads(isDefault: bool, button: DefaultDialogButton)
    ensures DefaultCheckOutcome(isDefault, button) == LoadMessages <==> isDefault || button == Cancel
    ensures DefaultCheckOutcome(isDefault, button) != LoadMessages ==> DefaultCheckOutcome(isDefault, button) == RequestDefaultRole
  {
  }

  /** Start-up: ask for the permissions unless all are held, else go on to the default-app check. */
  method CheckPermissionsAndSetupApp(granted: set<Permission>, isDefault: bool) returns (next: Step)
    ensures !AllRequiredGranted(granted) ==> next == RequestPermissions
    ensures AllRequiredGranted(granted) ==> next == CheckDefaultSmsApp(isDefault)
  {
    var all := HasAllPermissions(granted);
    if !all {
      next := RequestPermissions;
    } else {
      next := CheckDefaultSmsApp(isDefault);
    }
  }

  /** The answer to the permission request: the default-app check if every result is a grant, else the denial dialog. */
  method OnRequestPermissionsResult(requestCode: int, grantResults: seq<int>, isDefault: bool) returns (next: Step)
    ensures requestCode != PermissionRequestCode ==> next == NoStep
    ensures requestCode == PermissionRequestCode && AllResultsGranted(grantResults) ==> next == CheckDefaultSmsApp(isDefault)
    ensures requestCode == PermissionRequestCode && !AllResultsGranted(grantResults) ==> next == ShowPermissionDeniedDialog
  {
    next := NoStep;
    if requestCode == PermissionRequestCode {
      var allGranted := AllGranted(grantResults);
      if allGranted {
        next := CheckDefaultSmsApp(isDefault);
      } else {
        next := ShowPermissionDeniedDialog;
      }
    }
  }

  /** Returning to the screen reloads the list only when every permission is held. */
  method OnResume(granted: set<Permission>) returns (next: Step)
    ensures next == LoadMessages <==> AllRequiredGranted(granted)
    ensures next != LoadMessages ==> next == NoStep
  {
    var all := HasAllPermissions(granted);
    next := if all then LoadMessages else NoStep;
  }

  /** The refresh receiver reloads the list for exactly the actions it is registered for. */
  predicate TriggersReload(action: string)
  {
    action in RefreshActions
  }

  /**
   * The cursor loop of the reload: builds each row's SmsModel (resolving its
   * contact name) and appends it to the list of its address, creating the list
   * on the address's first row.
   */
  method GroupByAddress(rows: seq<CursorRow>, contactsGranted: bool, lookup: ContactLookup)
    returns (conversations: map<Address, seq<SmsModel>>)
    ensures IsGrouping(Models(rows, contactsGranted, lookup), conversations)
  {
    ghost var ms := Models(rows, contactsGranted, lookup);
    conversations := map[];
    var i := 0;
    while i < |rows|
      invariant 0 <= i <= |rows|
      invariant IsGrouping(ms[..i], conversations)
    {
      var sms := ToModel(rows[i], contactsGranted, lookup);
      assert ms[..i + 1] == ms[..i] + [sms];
      GroupingAppend(ms[..i], conversations, sms);
      var conversation := if sms.address in conversations then conversations[sms.address] else [];
      conversations := conversations[sms.address := conversation + [sms]];
      i := i + 1;
    }
    assert ms[..|rows|] == ms;
  }

  /** Collections.sort with the newest-first comparator: the same messages, dates non-increasing. */
  method SortByDateDesc(s: seq<SmsModel>) returns (r: seq<SmsModel>)
    ensures SortedByDateDesc(r)
    ensures multiset(r) == multiset(s)
  {
    r := [];
    for i := 0 to |s|
      invariant SortedByDateDesc(r)
      invariant multiset(r) == multiset(s[..i])
    {
      var x := s[i];
      var j := 0;
      while j < |r| && r[j].date >= x.date
        invariant 0 <= j <= |r|
        invariant forall k :: 0 <= k < j ==> r[k].date >= x.date
      {
        j := j + 1;
      }
      assert s[..i + 1] == s[..i] + [x];
      InsertKeepsSorted(r, j, x);
      r := r[..j] + [x] + r[j..];
    }
    assert s[..|s|] == s;
  }

  /** Position k of r with x inserted at position j. */
  lemma InsertedAt(r: seq<SmsModel>, j: nat, x: SmsModel, k: nat)
    requires j <= |r| && k <= |r|
    ensures (r[..j] + [x] + r[j..])[k] == if k < j then r[k] else if k == j then x else r[k - 1]
  {
  }

  /** Inserting x after the messages at least as new and before the older ones keeps the order. */
  lemma InsertKeepsSorted(r: seq<SmsModel>, j: nat, x: SmsModel)
    requires SortedByDateDesc(r) && j <= |r|
    requires forall k :: 0 <= k < j ==> r[k].date >= x.date
    requires j < |r| ==> r[j].date < x.date
    ensures SortedByDateDesc(r[..j] + [x] + r[j..])
    ensures multiset(r[..j] + [x] + r[j..]) == multiset(r) + multiset{x}
  {
    var r' := r[..j] + [x] + r[j..];
    assert r == r[..j] + r[j..];
    forall a, b | 0 <= a < b < |r'|
      ensures r'[a].date >= r'[b].date
    {
      InsertedAt(r, j, x, a);
      InsertedAt(r, j, x, b);
    }
  }

  class MainActivity {
    /** The list the adapter shows: one SmsModel per conversation. */
    var smsList: seq<SmsModel>

    constructor ()
      ensures smsList == []
    {
      smsList := [];
    }

    /**
     * The loop over the map's conversations, in whatever order the map yields
     * them: each non-empty conversation is sorted newest first and its head is
     * appended to the list.
     */
    method AddNewestOfEach(conversations: map<Address, seq<SmsModel>>, ghost ms: seq<SmsModel>)
      requires IsGrouping(ms, conversations) && smsList == []
      modifies this
      ensures IsLatestPerAddress(ms, AddressesOf(ms), smsList)
    {
      var pending := conversations.Keys;
      while pending != {}
        invariant pending <= conversations.Keys
        invariant IsLatestPerAddress(ms, conversations.Keys - pending, smsList)
        decreases pending
      {
        var address :| address in pending;
        var conversation := conversations[address];
        assert conversation == Group(ms, address);
        GroupNonEmpty(ms, address);
        if |conversation| > 0 {
          var sorted := SortByDateDesc(conversation);
          SortedGroupHead(ms, address, sorted);
          LatestPerAddressAppend(ms, conversations.Keys - pending, smsList, sorted[0]);
          smsList := smsList + [sorted[0]];
        }
        assert conversations.Keys - (pending - {address}) == (conversations.Keys - pending) + {address};
        pending := pending - {address};
      }
    }

    /**
     * Reloads the conversation list. The list is cleared first; without READ_SMS,
     * or when the query gives no cursor or no rows, it stays empty. Otherwise the
     * rows are grouped by address, each group's newest message is kept, and the
     * kept messages are sorted newest first. The cursor stands for the query, None
     * for a null cursor.
     */
    method LoadSmsMessages(granted: set<Permission>, cursor: Option<seq<CursorRow>>, lookup: ContactLookup)
      modifies this
      ensures ReadSms !in granted || cursor.None? ==> smsList == []
      ensures ReadSms in granted && cursor.Some? ==>
        IsConversationList(Models(cursor.value, ReadContacts in granted, lookup), smsList)
    {
      smsList := [];
      if ReadSms !in granted {
        return;
      }
      if cursor.None? || |cursor.value| == 0 {
        if cursor.Some? {
          assert Models(cursor.value, ReadContacts in granted, lookup) == [];
        }
        return;
      }
      var rows, contactsGranted := cursor.value, ReadContacts in granted;
      ghost var ms := Models(rows, contactsGranted, lookup);
      var conversations := GroupByAddress(rows, contactsGranted, lookup);
      AddNewestOfEach(conversations, ms);
      var picked := smsList;
      smsList := SortByDateDesc(smsList);
      SortedPermutationIsConversationList(ms, picked, smsList);
    }
  }
}
