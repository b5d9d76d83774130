/**
 * The SMS broadcast receiver: for each message of an SMS_RECEIVED or SMS_DELIVER
 * intent it sends the in-app refresh broadcast and then posts a notification.
 * Its effects are recorded, in order, in the Context's event trace.
 */
module Receiver {
  import opened Wrappers
  import Activity

  /** Telephony.Sms.Intents.SMS_RECEIVED_ACTION. */
  const SmsReceivedAction: string := "android.provider.Telephony.SMS_RECEIVED"

  /** Telephony.Sms.Intents.SMS_DELIVER_ACTION. */
  const SmsDeliverAction: string := "android.provider.Telephony.SMS_DELIVER"

  /** The action of the broadcast that asks the main screen to reload. */
  const RefreshAction: string := "com.example.defaultsmsapp.SMS_RECEIVED"

  const TitlePrefix: string := "New SMS from "

  /** One decoded SmsMessage: originating address, body and service-centre timestamp, any of the strings null. */
  datatype SmsMessage = SmsMessage(sender: Option<string>, body: Option<string>, timestampMillis: int)

  /** The extras bundle, reduced to the message array that getMessagesFromIntent decodes from it (None: a null array). */
  datatype Bundle = Bundle(messages: Option<seq<Option<SmsMessage>>>)

  datatype Intent = Intent(action: Option<string>, extras: Option<Bundle>)

  /** The two kinds of effect the receiver has. */
  datatype Event =
    | RefreshBroadcast(action: string, sender: Option<string>, message: Option<string>, timestamp: int)
    | Notification(title: string, text: Option<string>)

  /** Java string conversion in a concatenation: a null reference becomes "null". */
  function JavaString(s: Option<string>): (r: string)
    ensures s.Some? ==> r == s.value
    ensures s.None? ==> r == "null"
  {
    match s
    case Some(v) => v
    case None => "null"
  }

  /** The notification title: the fixed prefix followed by the sender. */
  function NotificationTitle(sender: Option<string>): (title: string)
    ensures |title| >= |TitlePrefix| && title[..|TitlePrefix|] == TitlePrefix
    ensures sender.Some? ==> title[|TitlePrefix|..] == sender.value
    ensures sender.None? ==> title == TitlePrefix + "null"
  {
    TitlePrefix + JavaString(sender)
  }

  /** The intent is one of the two SMS actions the receiver handles. */
  predicate Handles(intent: Intent)
  {
    intent.action == Some(SmsReceivedAction) || intent.action == Some(SmsDeliverAction)
  }

  /** The message array of the intent; missing extras and a null array both read as no messages. */
  function MessageArray(intent: Intent): seq<Option<SmsMessage>>
  {
    match intent.extras
    case None => []
    case Some(bundle) =>
      match bundle.messages
      case None => []
      case Some(messages) => messages
  }

  /** The non-null messages, in array order. */
  function NonNull(messages: seq<Option<SmsMessage>>): (r: seq<SmsMessage>)
    ensures forall m :: m in r <==> Some(m) in messages
    ensures |r| <= |messages|
  {
    if messages == [] then []
    else
      var init, last := messages[..|messages| - 1], messages[|messages| - 1];
      assert messages == init + [last];
      NonNull(init) + (if last.Some? then [last.value] else [])
  }

  /** The refresh broadcast for one message, carrying its sender, body and timestamp. */
  function BroadcastFor(m: SmsMessage): Event
  {
    RefreshBroadcast(RefreshAction, m.sender, m.body, m.timestampMillis)
  }

  /** The notification for one message: titled with the sender, showing the body. */
  function NotificationFor(m: SmsMessage): Event
  {
    Notification(NotificationTitle(m.sender), m.body)
  }

  /** The effects of handling a message array: per non-null message, its broadcast and then its notification. */
  function EventsFor(messages: seq<Option<SmsMessage>>, notificationService: bool): seq<Event>
  {
    if messages == [] then []
    else
      var init, last := messages[..|messages| - 1], messages[|messages| - 1];
      EventsFor(init, notificationService) + EntryEvents(last, notificationService)
  }

  /** The effects of one array entry: none for null, else the broadcast and then the notification if posted. */
  function EntryEvents(entry: Option<SmsMessage>, notificationService: bool): seq<Event>
  {
    match entry
    case None => []
    case Some(m) => [BroadcastFor(m)] + (if notificationService then [NotificationFor(m)] else [])
  }

  lemma EventsForAppend(messages: seq<Option<SmsMessage>>, i: nat, notificationService: bool)
    requires i < |messages|
    ensures EventsFor(messages[..i + 1], notificationService) == EventsFor(messages[..i], notificationService) + EntryEvents(messages[i], notificationService)
  {
    assert messages[..i + 1][..i] == messages[..i];
  }

  /** The effects of one delivered intent. */
  function ReceiveEvents(intent: Intent, notificationService: bool): seq<Event>
  {
    if Handles(intent) then EventsFor(MessageArray(intent), notificationService) else []
  }

  /** Two events per non-null message, or one when no notification can be posted; none for null entries. */
  lemma {:induction false} EventCount(messages: seq<Option<SmsMessage>>)
    ensures |EventsFor(messages, true)| == 2 * |NonNull(messages)|
    ensures |EventsFor(messages, false)| == |NonNull(messages)|
  {
    if messages != [] {
      var init, last := messages[..|messages| - 1], messages[|messages| - 1];
      assert messages == init + [last];
      EventCount(init);
    }
  }

  /**
   * An intent other than SMS_RECEIVED or SMS_DELIVER, or one without a message,
   * has no effect; a handled one has two events per non-null message (one
   * without a notification service).
   */
  lemma ReceiveEventCount(intent: Intent, notificationService: bool)
    ensures !Handles(intent) ==> ReceiveEvents(intent, notificationService) == []
    ensures intent.action.None? || intent.extras.None? ==> ReceiveEvents(intent, notificationService) == []
    ensures Handles(intent) && notificationService ==>
      |ReceiveEvents(intent, true)| == 2 * |NonNull(MessageArray(intent))|
    ensures Handles(intent) && !notificationService ==>
      |ReceiveEvents(intent, false)| == |NonNull(MessageArray(intent))|
    ensures ReceiveEvents(intent, notificationService) != [] <==> Handles(intent) && NonNull(MessageArray(intent)) != []
  {
    EventCount(MessageArray(intent));
  }

  /**
   * The k-th non-null message produces the events at its own positions: with a
   * notification service, its broadcast at 2k and its notification at 2k+1;
   * without one, its broadcast at k.
   */
  lemma {:induction false} EventLayout(messages: seq<Option<SmsMessage>>, notificationService: bool, k: nat)
    requires k < |NonNull(messages)|
    ensures |EventsFor(messages, true)| == 2 * |NonNull(messages)|
    ensures |EventsFor(messages, false)| == |NonNull(messages)|
    ensures notificationService ==>
      && EventsFor(messages, true)[2 * k] == BroadcastFor(NonNull(messages)[k])
      && EventsFor(messages, true)[2 * k + 1] == NotificationFor(NonNull(messages)[k])
    ensures !notificationService ==> EventsFor(messages, false)[k] == BroadcastFor(NonNull(messages)[k])
  {
    var init, last := messages[..|messages| - 1], messages[|messages| - 1];
    assert messages == init + [last];
    EventCount(messages);
    EventCount(init);
    if k < |NonNull(init)| {
      EventLayout(init, notificationService, k);
    }
  }

  /** Number of events that make the main screen reload. */
  function Reloads(events: seq<Event>): (n: nat)
    ensures n <= |events|
  {
    if events == [] then 0
    else
      var last := events[|events| - 1];
      Reloads(events[..|events| - 1]) + (if last.RefreshBroadcast? && Activity.TriggersReload(last.action) then 1 else 0)
  }

  lemma {:induction false} ReloadsAppend(a: seq<Event>, b: seq<Event>)
    ensures Reloads(a + b) == Reloads(a) + Reloads(b)
    decreases |b|
  {
    if b == [] {
      assert a + b == a;
    } else {
      var init, last := b[..|b| - 1], b[|b| - 1];
      assert a + b == (a + init) + [last];
      assert b == init + [last];
      ReloadsAppend(a, init);
      assert (a + b)[..|a + b| - 1] == a + init;
      assert b[..|b| - 1] == init;
    }
  }

  /**
   * The main screen's refresh filter reloads on the receiver's own broadcast
   * and on the MMS action, and on nothing else; in particular not on the two
   * platform actions the receiver itself handles.
   */
  lemma RefreshFilter(action: string)
    ensures Activity.TriggersReload(action) <==> action == RefreshAction || action == "com.example.defaultsmsapp.MMS_RECEIVED"
    ensures !Activity.TriggersReload(SmsReceivedAction) && !Activity.TriggersReload(SmsDeliverAction)
  {
    assert Activity.RefreshActions == [RefreshAction, "com.example.defaultsmsapp.MMS_RECEIVED"];
  }

  /** Every non-null message of a handled intent makes the main screen reload exactly once. */
  lemma {:induction false} OneReloadPerMessage(messages: seq<Option<SmsMessage>>, notificationService: bool)
    ensures Reloads(EventsFor(messages, notificationService)) == |NonNull(messages)|
  {
    if messages != [] {
      var init, last := messages[..|messages| - 1], messages[|messages| - 1];
      assert messages == init + [last];
      OneReloadPerMessage(init, notificationService);
      if last.Some? {
        var m := last.value;
        var tail := [BroadcastFor(m)] + (if notificationService then [NotificationFor(m)] else []);
        ReloadsAppend(EventsFor(init, notificationService), tail);
        assert Activity.TriggersReload(RefreshAction) by {
          assert Activity.RefreshActions[0] == RefreshAction;
        }
        assert [BroadcastFor(m)][..0] == [];
        if notificationService {
          ReloadsAppend([BroadcastFor(m)], [NotificationFor(m)]);
        }
      } else {
        assert EventsFor(messages, notificationService) == EventsFor(init, notificationService);
      }
    }
  }

  /** What the receiver sees of the app context: the trace of what it sent and posted. */
  class Context {
    var events: seq<Event>
    /** Whether getSystemService(NOTIFICATION_SERVICE) returns a manager. */
    const notificationService: bool

    constructor (notificationService: bool)
      ensures events == [] && this.notificationService == notificationService
    {
      events := [];
      this.notificationService := notificationService;
    }

    method SendBroadcast(e: Event)
      requires e.RefreshBroadcast?
      modifies this
      ensures events == old(events) + [e]
    {
      events := events + [e];
    }

    method Notify(e: Event)
      requires e.Notification?
      modifies this
      ensures events == old(events) + [e]
    {
      events := events + [e];
    }
  }

  /** Posts the notification for a message, or does nothing when there is no notification manager. */
  method ShowNotification(context: Context, sender: Option<string>, message: Option<string>)
    modifies context
    ensures context.notificationService ==>
      context.events == old(context.events) + [Notification(NotificationTitle(sender), message)]
    ensures !context.notificationService ==> context.events == old(context.events)
  {
    if !context.notificationService {
      return;
    }
    context.Notify(Notification(TitlePrefix + JavaString(sender), message));
  }

  /** The body of the per-message loop: the refresh broadcast with sender, body and timestamp, then the notification. */
  method RefreshAndNotify(context: Context, smsMessage: SmsMessage)
    modifies context
    ensures context.events == old(context.events) + EntryEvents(Some(smsMessage), context.notificationService)
  {
    context.SendBroadcast(RefreshBroadcast(RefreshAction, smsMessage.sender, smsMessage.body, smsMessage.timestampMillis));
    ShowNotification(context, smsMessage.sender, smsMessage.body);
  }

  /** Sends one broadcast and one notification per non-null message, in array order. */
  method HandleSmsReceived(context: Context, intent: Intent)
    modifies context
    ensures context.events == old(context.events) + EventsFor(MessageArray(intent), context.notificationService)
  {
    ghost var before := context.events;
    var notificationService := context.notificationService;
    if intent.extras.None? {
      return;
    }
    var decoded := intent.extras.value.messages;
    if decoded.None? || |decoded.value| == 0 {
      return;
    }
    var messages := decoded.value;
    assert MessageArray(intent) == messages;
    for i := 0 to |messages|
      invariant context.events == before + EventsFor(messages[..i], notificationService)
    {
      EventsForAppend(messages, i, notificationService);
      if messages[i].None? {
        assert EventsFor(messages[..i], notificationService) + [] == EventsFor(messages[..i], notificationService);
        continue;
      }
      var smsMessage := messages[i].value;
      RefreshAndNotify(context, smsMessage);
    }
    assert messages[..|messages|] == messages;
  }

  /** Dispatches on the intent's action: only the two SMS actions are handled. */
  method OnReceive(context: Context, intent: Intent)
    modifies context
    ensures context.events == old(context.events) + ReceiveEvents(intent, context.notificationService)
  {
    if intent.action.None? {
      return;
    }
    var action := intent.action.value;
    if action == SmsReceivedAction || action == SmsDeliverAction {
      HandleSmsReceived(context, intent);
    }
  }
}
