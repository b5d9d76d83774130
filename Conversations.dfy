/**
 * The conversation list of the SMS inbox: the rows of the SMS content provider,
 * the SmsModel built for each row, and what it means for a list of SmsModels to
 * be the inbox's conversation list (one entry per address, the newest message of
 * that address, newest conversation first).
 */
module Conversations {
  import opened Wrappers

  /** The ADDRESS column; None stands for SQL NULL, which a HashMap accepts as a key of its own. */
  type Address = Option<string>

  /** One row of the query over content://sms/, with its six projected columns. */
  datatype CursorRow = CursorRow(
    id: int,
    address: Address,
    body: Option<string>,
    date: int,
    smsType: int,
    read: int)

  /** The message object shown in the list: the row's columns plus the resolved contact name. */
  datatype SmsModel = SmsModel(
    id: int,
    address: Address,
    body: Option<string>,
    date: int,
    smsType: int,
    isRead: bool,
    contactName: Address)

  /**
   * The PhoneLookup query for a number: Some(display name) when a contact matched,
   * None when the query found no row, returned no cursor or threw.
   */
  type ContactLookup = Address -> Option<string>

  /** The name shown for a number: the contact's display name when it can be looked up, else the number itself. */
  function ContactName(contactsGranted: bool, lookup: ContactLookup, phoneNumber: Address): (name: Address)
    ensures !contactsGranted ==> name == phoneNumber
    ensures lookup(phoneNumber).None? ==> name == phoneNumber
    ensures contactsGranted && lookup(phoneNumber).Some? ==> name == Some(lookup(phoneNumber).value)
  {
    if !contactsGranted then phoneNumber
    else match lookup(phoneNumber)
      case Some(displayName) => Some(displayName)
      case None => phoneNumber
  }

  /** The SmsModel built from one cursor row; READ is true only when the column holds 1. */
  function ToModel(row: CursorRow, contactsGranted: bool, lookup: ContactLookup): (m: SmsModel)
    ensures m.id == row.id && m.address == row.address && m.body == row.body
    ensures m.date == row.date && m.smsType == row.smsType
    ensures m.isRead <==> row.read == 1
    ensures m.contactName == ContactName(contactsGranted, lookup, row.address)
  {
    SmsModel(row.id, row.address, row.body, row.date, row.smsType, row.read == 1,
             ContactName(contactsGranted, lookup, row.address))
  }

  /** The SmsModels of all rows, in cursor order. */
  function Models(rows: seq<CursorRow>, contactsGranted: bool, lookup: ContactLookup): (ms: seq<SmsModel>)
    ensures |ms| == |rows|
    ensures forall i :: 0 <= i < |rows| ==> ms[i].id == rows[i].id && ms[i].address == rows[i].address && ms[i].date == rows[i].date
  {
    seq(|rows|, i requires 0 <= i < |rows| => ToModel(rows[i], contactsGranted, lookup))
  }

  /** Every model carries its row's columns unchanged: the list fabricates no message. */
  lemma ModelsCopyRows(rows: seq<CursorRow>, contactsGranted: bool, lookup: ContactLookup, m: SmsModel)
    requires m in Models(rows, contactsGranted, lookup)
    ensures exists i :: (&& 0 <= i < |rows|
                         && m.id == rows[i].id && m.address == rows[i].address
                         && m.body == rows[i].body && m.date == rows[i].date
                         && m.smsType == rows[i].smsType && m.isRead == (rows[i].read == 1)
                         && m.contactName == ContactName(contactsGranted, lookup, rows[i].address))
  {
    var ms := Models(rows, contactsGranted, lookup);
    var i :| 0 <= i < |ms| && ms[i] == m;
    assert m == ToModel(rows[i], contactsGranted, lookup);
  }

  /** The conversation of address a: the messages with that address, in their original order. */
  function Group(ms: seq<SmsModel>, a: Address): (g: seq<SmsModel>)
    ensures forall m :: m in g <==> m in ms && m.address == a
    ensures |g| <= |ms|
  {
    if ms == [] then []
    else
      var init, last := ms[..|ms| - 1], ms[|ms| - 1];
      assert ms == init + [last];
      Group(init, a) + (if last.address == a then [last] else [])
  }

  /** Appending a message extends its own conversation and no other, and adds its address. */
  lemma GroupAppend(ms: seq<SmsModel>, m: SmsModel)
    ensures forall a :: Group(ms + [m], a) == Group(ms, a) + (if m.address == a then [m] else [])
    ensures AddressesOf(ms + [m]) == AddressesOf(ms) + {m.address}
    ensures m.address !in AddressesOf(ms) ==> Group(ms, m.address) == []
  {
    assert (ms + [m])[..|ms|] == ms;
    var g := Group(ms, m.address);
    if g != [] {
      assert g[0] in ms && g[0].address == m.address;
    }
  }

  /** conversations maps each address present among the messages to that address's conversation. */
  ghost predicate IsGrouping(ms: seq<SmsModel>, conversations: map<Address, seq<SmsModel>>)
  {
    && conversations.Keys == AddressesOf(ms)
    && forall a :: a in conversations ==> conversations[a] == Group(ms, a)
  }

  /** Appending m to its address's list (created empty on first use) groups one more message. */
  lemma GroupingAppend(ms: seq<SmsModel>, conversations: map<Address, seq<SmsModel>>, m: SmsModel)
    requires IsGrouping(ms, conversations)
    ensures var conversation := if m.address in conversations then conversations[m.address] else [];
            IsGrouping(ms + [m], conversations[m.address := conversation + [m]])
  {
    GroupAppend(ms, m);
  }

  /** The distinct addresses among the messages. */
  function AddressesOf(ms: seq<SmsModel>): set<Address>
  {
    set m | m in ms :: m.address
  }

  /** m is one of the messages, and no message of its address is newer. */
  ghost predicate IsLatestIn(ms: seq<SmsModel>, m: SmsModel)
  {
    m in ms && forall x :: x in ms && x.address == m.address ==> x.date <= m.date
  }

  /** Dates never increase along the list. */
  ghost predicate SortedByDateDesc(s: seq<SmsModel>)
  {
    forall i, j :: 0 <= i < j < |s| ==> s[i].date >= s[j].date
  }

  /** No two positions of the list hold the same address. */
  ghost predicate DistinctAddresses(s: seq<SmsModel>)
  {
    forall i, j :: 0 <= i < j < |s| ==> s[i].address != s[j].address
  }

  /**
   * list is a conversation list of the messages ms: one entry per distinct
   * address, each the newest message of its address (ties: any of the newest),
   * newest first (ties between conversations: any order).
   */
  ghost predicate IsConversationList(ms: seq<SmsModel>, list: seq<SmsModel>)
  {
    && SortedByDateDesc(list)
    && DistinctAddresses(list)
    && AddressesOf(list) == AddressesOf(ms)
    && forall m :: m in list ==> IsLatestIn(ms, m)
  }

  /** Every address present among the messages has a non-empty conversation. */
  lemma GroupNonEmpty(ms: seq<SmsModel>, a: Address)
    requires a in AddressesOf(ms)
    ensures Group(ms, a) != []
  {
    var m :| m in ms && m.address == a;
    assert m in Group(ms, a);
  }

  /** Sorting an address's conversation newest first puts one of its newest messages at the head. */
  lemma SortedGroupHead(ms: seq<SmsModel>, a: Address, sorted: seq<SmsModel>)
    requires a in AddressesOf(ms)
    requires SortedByDateDesc(sorted) && multiset(sorted) == multiset(Group(ms, a))
    ensures sorted != [] && sorted[0].address == a && IsLatestIn(ms, sorted[0])
  {
    var g := Group(ms, a);
    GroupNonEmpty(ms, a);
    assert |sorted| == |multiset(sorted)| == |g|;
    assert sorted[0] in multiset(g);
    forall m | m in ms && m.address == a
      ensures m.date <= sorted[0].date
    {
      assert m in multiset(sorted);
      var k :| 0 <= k < |sorted| && sorted[k] == m;
    }
  }

  /**
   * picked holds, for each address of done and no other, exactly one entry,
   * and that entry is a newest message of its address.
   */
  ghost predicate IsLatestPerAddress(ms: seq<SmsModel>, done: set<Address>, picked: seq<SmsModel>)
  {
    && DistinctAddresses(picked)
    && AddressesOf(picked) == done
    && forall m :: m in picked ==> IsLatestIn(ms, m)
  }

  /** Adding a newest message of a new address extends the picked entries by that address. */
  lemma LatestPerAddressAppend(ms: seq<SmsModel>, done: set<Address>, picked: seq<SmsModel>, m: SmsModel)
    requires IsLatestPerAddress(ms, done, picked)
    requires IsLatestIn(ms, m) && m.address !in done
    ensures IsLatestPerAddress(ms, done + {m.address}, picked + [m])
  {
    var p := picked + [m];
    assert AddressesOf(p) == AddressesOf(picked) + {m.address};
    forall i, j | 0 <= i < j < |p|
      ensures p[i].address != p[j].address
    {
      if j == |picked| {
        assert p[i] in picked;
      } else {
        assert p[i] == picked[i] && p[j] == picked[j];
      }
    }
  }

  /** A list without repeated addresses has as many entries as addresses. */
  lemma {:induction false} DistinctCardinality(s: seq<SmsModel>)
    requires DistinctAddresses(s)
    ensures |AddressesOf(s)| == |s|
  {
    if s != [] {
      var init, last := s[..|s| - 1], s[|s| - 1];
      assert s == init + [last];
      DistinctCardinality(init);
      assert AddressesOf(s) == AddressesOf(init) + {last.address};
      assert last.address !in AddressesOf(init);
    }
  }

  /** Exactly one entry per distinct address: the list is as long as there are addresses. */
  lemma ConversationCount(ms: seq<SmsModel>, list: seq<SmsModel>)
    requires IsConversationList(ms, list)
    ensures |list| == |AddressesOf(ms)|
    ensures list == [] <==> ms == []
  {
    DistinctCardinality(list);
    if ms != [] {
      assert ms[0].address in AddressesOf(ms);
    }
  }

  /** The first conversation holds the newest message of all. */
  lemma NewestConversationFirst(ms: seq<SmsModel>, list: seq<SmsModel>)
    requires IsConversationList(ms, list)
    requires ms != []
    ensures list != []
    ensures forall m :: m in ms ==> m.date <= list[0].date
  {
    ConversationCount(ms, list);
    forall m | m in ms
      ensures m.date <= list[0].date
    {
      assert m.address in AddressesOf(list);
      var e :| e in list && e.address == m.address;
      var j :| 0 <= j < |list| && list[j] == e;
      assert IsLatestIn(ms, e);
    }
  }

  /** Position i of s with position k removed. */
  lemma RemovedAt(s: seq<SmsModel>, k: nat, i: nat)
    requires k < |s| && i < |s| - 1
    ensures (s[..k] + s[k + 1..])[i] == s[if i < k then i else i + 1]
  {
  }

  /** Removing one position keeps the addresses distinct and removes exactly that address. */
  lemma RemoveKeepsDistinct(s: seq<SmsModel>, k: nat)
    requires k < |s| && DistinctAddresses(s)
    ensures DistinctAddresses(s[..k] + s[k + 1..])
    ensures forall m :: m in s[..k] + s[k + 1..] ==> m.address != s[k].address
  {
    var s' := s[..k] + s[k + 1..];
    forall i, j | 0 <= i < j < |s'|
      ensures s'[i].address != s'[j].address
    {
      RemovedAt(s, k, i);
      RemovedAt(s, k, j);
    }
    forall m | m in s'
      ensures m.address != s[k].address
    {
      var i :| 0 <= i < |s'| && s'[i] == m;
      RemovedAt(s, k, i);
    }
  }

  /** Removing position k removes one occurrence of s[k] from the multiset of s. */
  lemma MultisetRemovedAt(s: seq<SmsModel>, k: nat)
    requires k < |s|
    ensures multiset(s[..k] + s[k + 1..]) == multiset(s) - multiset{s[k]}
  {
    assert s == s[..k] + [s[k]] + s[k + 1..];
  }

  /** Reordering a list keeps its addresses distinct. */
  lemma {:induction false} PermutationKeepsDistinct(s: seq<SmsModel>, t: seq<SmsModel>)
    requires multiset(s) == multiset(t)
    requires DistinctAddresses(s)
    ensures DistinctAddresses(t)
    decreases |t|
  {
    if t != [] {
      var x, rest := t[0], t[1..];
      assert x in multiset(s);
      var k :| 0 <= k < |s| && s[k] == x;
      var s' := s[..k] + s[k + 1..];
      MultisetRemovedAt(s, k);
      MultisetRemovedAt(t, 0);
      assert t[..0] + t[1..] == rest;
      RemoveKeepsDistinct(s, k);
      PermutationKeepsDistinct(s', rest);
      forall i, j | 0 <= i < j < |t|
        ensures t[i].address != t[j].address
      {
        assert t[j] == rest[j - 1];
        if i == 0 {
          assert rest[j - 1] in multiset(s');
        } else {
          assert t[i] == rest[i - 1];
        }
      }
    }
  }

  /**
   * Putting the per-address newest messages into date order yields a conversation
   * list: the order of the entries is the only thing the final sort changes.
   */
  lemma SortedPermutationIsConversationList(ms: seq<SmsModel>, picked: seq<SmsModel>, list: seq<SmsModel>)
    requires IsLatestPerAddress(ms, AddressesOf(ms), picked)
    requires multiset(list) == multiset(picked)
    requires SortedByDateDesc(list)
    ensures IsConversationList(ms, list)
  {
    PermutationKeepsDistinct(picked, list);
    forall m
      ensures m in list <==> m in picked
    {
      assert m in list <==> m in multiset(list);
      assert m in picked <==> m in multiset(picked);
    }
    assert AddressesOf(list) == AddressesOf(picked);
  }

  /**
   * Two conversation lists of the same messages give every address the same date:
   * whichever newest message a tie lets them pick, its date is the newest date.
   */
  lemma ConversationDatesAgree(ms: seq<SmsModel>, list1: seq<SmsModel>, list2: seq<SmsModel>, m1: SmsModel, m2: SmsModel)
    requires IsConversationList(ms, list1) && IsConversationList(ms, list2)
    requires m1 in list1 && m2 in list2 && m1.address == m2.address
    ensures m1.date == m2.date
  {
    assert IsLatestIn(ms, m1) && IsLatestIn(ms, m2);
  }
}
