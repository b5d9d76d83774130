# Default SMS app: conversation list and incoming-SMS dispatch

This project models the two parts of the Android "default SMS app" that hold real logic.

- **The conversation list of the main screen** (`MainActivity.loadSmsMessages`). The screen clears its list. Without READ_SMS, or when the query of `content://sms/` gives no cursor or no rows, the list stays empty. Otherwise it groups the rows by address in a `HashMap` (a null address is a key of its own). It sorts each group newest first and keeps its head. Then it sorts the kept messages newest first. Each row's display name comes from a contact lookup that falls back to the number.
- **The start-up decisions around it**: the permission checks (`hasAllPermissions` and the grant-result scan of `onRequestPermissionsResult`), `checkDefaultSmsApp` and its dialog's two buttons, `checkPermissionsAndSetupApp` and `onResume`.
- **The SMS broadcast receiver** (`SmsReceiver`). It acts only on `SMS_RECEIVED` and `SMS_DELIVER` intents. It ignores intents without extras or without messages and skips null messages. For each remaining message, in order, it sends the in-app refresh broadcast (`com.example.defaultsmsapp.SMS_RECEIVED`, with sender, body and timestamp) and then posts a notification titled "New SMS from " + sender and showing the body.

Modules:

- `Wrappers` holds `Option`, which stands for Java's nullable references.
- `Conversations` holds the cursor row, `SmsModel`, the contact-name fallback and the specification of a conversation list (`IsConversationList`). It also holds the lemmas about that specification.
- `Activity` holds the `MainActivity` class. Its field `smsList` is what `LoadSmsMessages` clears and fills. Beside the class are the grouping loop, the sort, the permission loops and the start-up decisions.
- `Receiver` holds the intent, message and event types. It holds the `Context` class, whose event trace records every broadcast and notification in order, and the receiver's methods. It also holds the specification of the trace (`ReceiveEvents`) and the lemmas about it.

Inputs that the platform provides are parameters:

- the set of granted permissions;
- whether the app is the default SMS app;
- the query result, as `Option<seq<CursorRow>>` (None for a null cursor);
- the contact lookup, as a function from a number to `Option<string>` (None when nothing matched or the query threw);
- whether a notification manager exists.

## Model

| member | source | states |
|---|---|---|
| `Conversations.ContactName` | app/src/main/java/com/example/defaultsmsapp/MainActivity.java:267-285 | Without READ_CONTACTS, or when the lookup finds no contact, the name is the number unchanged. Otherwise it is the looked-up display name. |
| `Conversations.ToModel` | app/src/main/java/com/example/defaultsmsapp/MainActivity.java:230-239 | The SmsModel copies the row's id, address, body, date and type unchanged. Its read flag is true exactly when READ is 1. Its name is the contact name of the row's address. |
| `Conversations.Models` | app/src/main/java/com/example/defaultsmsapp/MainActivity.java:227-240 | One SmsModel per cursor row, in cursor order, each carrying its row's id, address and date. |
| `Conversations.ModelsCopyRows` | app/src/main/java/com/example/defaultsmsapp/MainActivity.java:230-239 | Every SmsModel copies some row's id, address, body, date and type unchanged. Its read flag is true exactly when READ is 1, and its name is that row's contact name. |
| `Conversations.Group` | app/src/main/java/com/example/defaultsmsapp/MainActivity.java:242 | A message is in an address's conversation iff it is one of the messages and has that address. |
| `Conversations.GroupAppend` | app/src/main/java/com/example/defaultsmsapp/MainActivity.java:242 | Appending a message extends only its own address's conversation and adds its address to the key set. A new address had an empty conversation. |
| `Conversations.GroupingAppend` | app/src/main/java/com/example/defaultsmsapp/MainActivity.java:242 | `computeIfAbsent(address, new list).add(sms)` keeps the map a correct grouping of the messages seen so far. |
| `Conversations.GroupNonEmpty` | app/src/main/java/com/example/defaultsmsapp/MainActivity.java:248 | Every key of the map has a non-empty conversation, so the `isEmpty` guard never skips one. |
| `Conversations.SortedGroupHead` | app/src/main/java/com/example/defaultsmsapp/MainActivity.java:248-251 | After a conversation is sorted newest first, its head has the conversation's address and no message of that address is newer. |
| `Conversations.LatestPerAddressAppend` | app/src/main/java/com/example/defaultsmsapp/MainActivity.java:247-253 | Appending the newest message of a not-yet-seen address keeps one entry per seen address, each one a newest message. |
| `Conversations.PermutationKeepsDistinct` | app/src/main/java/com/example/defaultsmsapp/MainActivity.java:256 | Reordering the list keeps its addresses distinct. |
| `Conversations.SortedPermutationIsConversationList` | app/src/main/java/com/example/defaultsmsapp/MainActivity.java:247-256 | The kept heads, put in date order, form a conversation list: one entry per distinct address, each a newest message of its address, dates non-increasing. |
| `Conversations.ConversationCount` | app/src/main/java/com/example/defaultsmsapp/MainActivity.java:227-253 | A conversation list has exactly as many entries as there are distinct addresses. It is empty iff there are no messages. |
| `Conversations.NewestConversationFirst` | app/src/main/java/com/example/defaultsmsapp/MainActivity.java:247-256 | For a non-empty query, the first entry is at least as new as every message. |
| `Conversations.ConversationDatesAgree` | app/src/main/java/com/example/defaultsmsapp/MainActivity.java:248-251 | Two conversation lists of the same messages give each address the same date, whichever of the equally new messages a tie lets them keep. |
| `Activity.HasAllPermissions` | app/src/main/java/com/example/defaultsmsapp/MainActivity.java:103-110 | True iff every one of the five required permissions is granted. |
| `Activity.AllGranted` | app/src/main/java/com/example/defaultsmsapp/MainActivity.java:121-127 | True iff every grant result equals PERMISSION_GRANTED (0). True for an empty array. |
| `Activity.CheckDefaultSmsApp` | app/src/main/java/com/example/defaultsmsapp/MainActivity.java:147-153 | Loads the messages iff the app is the default SMS app. Otherwise it shows the set-default dialog. |
| `Activity.OnDefaultDialogButton` | app/src/main/java/com/example/defaultsmsapp/MainActivity.java:163-166 | "Set Default" requests the SMS role. "Cancel" still loads the messages. |
| `Activity.DefaultCheckLoads` | app/src/main/java/com/example/defaultsmsapp/MainActivity.java:147-166 | The default-app check ends in loading the messages iff the app is the default or the user cancels. Otherwise it ends in the role request. |
| `Activity.CheckPermissionsAndSetupApp` | app/src/main/java/com/example/defaultsmsapp/MainActivity.java:95-101 | Requests the permissions unless all are granted. Otherwise it goes on to the default-app check. |
| `Activity.OnRequestPermissionsResult` | app/src/main/java/com/example/defaultsmsapp/MainActivity.java:117-135 | Ignores other request codes. For code 100 it goes on to the default-app check iff all results are grants, else it shows the denial dialog. |
| `Activity.OnResume` | app/src/main/java/com/example/defaultsmsapp/MainActivity.java:288-293 | Reloads iff all required permissions are granted. Otherwise it does nothing. |
| `Activity.GroupByAddress` | app/src/main/java/com/example/defaultsmsapp/MainActivity.java:226-244 | The cursor loop yields a map whose keys are exactly the rows' distinct addresses (null included). Each key maps to the SmsModels of its rows, in cursor order. |
| `Activity.SortByDateDesc` | app/src/main/java/com/example/defaultsmsapp/MainActivity.java:256 | `Collections.sort` with the newest-first comparator returns the same messages (a permutation) with non-increasing dates. |
| `Activity.MainActivity.constructor` | app/src/main/java/com/example/defaultsmsapp/MainActivity.java:64-69 | The screen starts with an empty list. |
| `Activity.MainActivity.AddNewestOfEach` | app/src/main/java/com/example/defaultsmsapp/MainActivity.java:247-253 | Visiting the map's conversations in any order appends one newest message per address, and nothing else. |
| `Activity.MainActivity.LoadSmsMessages` | app/src/main/java/com/example/defaultsmsapp/MainActivity.java:200-265 | The list is cleared first. Without READ_SMS or with a null cursor it is empty. Otherwise it is a conversation list of the rows' SmsModels, so nothing of the earlier list survives. |
| `Receiver.NotificationTitle` | app/src/main/java/com/example/defaultsmsapp/SmsReceiver.java:110 | The title starts with "New SMS from ", and the rest is the sender. A null sender gives "New SMS from null". |
| `Receiver.NonNull` | app/src/main/java/com/example/defaultsmsapp/SmsReceiver.java:48-51 | The handled messages are exactly the non-null entries of the array. |
| `Receiver.EventsForAppend` | app/src/main/java/com/example/defaultsmsapp/SmsReceiver.java:48-71 | One more array entry appends its own events after those of the earlier entries: none for null, else the broadcast and then the notification. |
| `Receiver.EventCount` | app/src/main/java/com/example/defaultsmsapp/SmsReceiver.java:48-71 | Two events per non-null message, or one when no notification manager exists. |
| `Receiver.ReceiveEventCount` | app/src/main/java/com/example/defaultsmsapp/SmsReceiver.java:15-46 | A null or unknown action, or missing extras, has no effect. A null or empty message array has no effect either. A handled intent has 2 × (non-null messages) events. |
| `Receiver.EventLayout` | app/src/main/java/com/example/defaultsmsapp/SmsReceiver.java:53-70 | The k-th non-null message's refresh broadcast is event 2k. It has action `com.example.defaultsmsapp.SMS_RECEIVED` and carries sender, body and timestamp. Its notification is event 2k+1. Without a notification manager the broadcast is event k. |
| `Receiver.RefreshFilter` | app/src/main/java/com/example/defaultsmsapp/MainActivity.java:83-91 | The screen's refresh receiver reloads on exactly `com.example.defaultsmsapp.SMS_RECEIVED` and `com.example.defaultsmsapp.MMS_RECEIVED`. It does not reload on the platform's `SMS_RECEIVED` or `SMS_DELIVER` actions. |
| `Receiver.OneReloadPerMessage` | app/src/main/java/com/example/defaultsmsapp/SmsReceiver.java:63-67 | Each non-null message yields exactly one event that the main screen's refresh filter (`SMS_RECEIVED`, `MMS_RECEIVED`) reloads on. |
| `Receiver.ShowNotification` | app/src/main/java/com/example/defaultsmsapp/SmsReceiver.java:78-120 | Posts the notification for the sender and body. With no notification manager it changes nothing. |
| `Receiver.RefreshAndNotify` | app/src/main/java/com/example/defaultsmsapp/SmsReceiver.java:53-70 | Appends the message's refresh broadcast and then its notification, if one is posted. |
| `Receiver.HandleSmsReceived` | app/src/main/java/com/example/defaultsmsapp/SmsReceiver.java:33-76 | Appends exactly the events of the message array, in array order. Null entries are skipped. |
| `Receiver.OnReceive` | app/src/main/java/com/example/defaultsmsapp/SmsReceiver.java:15-31 | Appends exactly `ReceiveEvents(intent)`: the handled events for the two SMS actions and nothing otherwise. The trace holds only broadcasts and notifications, so the receiver never writes to the message store. |

## Left out

- The Android UI is left out: the RecyclerView and its adapter, `notifyDataSetChanged`, the compose button, the toasts, and the permission-denied dialog's buttons. The set-default dialog is modelled only as the step each of its buttons leads to.
- Negotiating the SMS role is left out: `requestDefaultSmsApp`, `onActivityResult` and `isDefaultSmsApp`. "Is the default SMS app" is a boolean input.
- Content-provider queries and cursor mechanics are replaced by an input sequence of rows. The PhoneLookup query, including its URI encoding, is replaced by the lookup function.
- Registering and unregistering the refresh receiver, and delivering broadcasts, are left out. Only the receiver's filter actions are modelled.
- Notification channels, the PendingIntent, the small icon and priority, and the notification id taken from the clock are left out. So is decoding the PDUs in `getMessagesFromIntent`: the model starts from the decoded message array.
- The catch-all exception handlers (MainActivity.java:258-261, SmsReceiver.java:73-75) are left out, and with them the partially filled states an exception can leave behind. So are `getColumnIndexOrThrow` failures and logging.
- Concurrency between incoming broadcasts and reloads is not modelled.
- Activity.SortByDateDesc: does not state that `Collections.sort` is stable. So when several messages of one address share the newest date, the model leaves open which of them is kept. Between conversations with equal dates, the map's iteration order, which the model also leaves open, decides the order.
- `SmsModel.date` is an unbounded integer, not a Java `long`. `Long.compare` never overflows, so nothing depends on the width.
- The code has no deduplication of redelivered messages, no appending to the message store and no retries, no tie-break by message id, and no coalescing of refresh broadcasts. The model has none of them either. The receiver stores nothing, since the platform stores messages for the default SMS app.
