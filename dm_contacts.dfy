/**
 * `client/src/hooks/messages/useDMContacts.js`: the list of users the current user has
 * direct conversations with. Fetching replaces the list; adding a contact moves it (or
 * puts it, when new) at the top with a fresh `lastMessageAt`.
 */
module DmContacts {
  import opened Wrappers
  import opened Seqs

  /** A contact as the hook keeps it. */
  datatype Contact = Contact(id: string, username: string, lastMessageAt: string)

  function HasId(id: string): Contact -> bool {
    (c: Contact) => c.id == id
  }

  /** What the fetch of lines 11-36 yields: the parsed body, or the message of the error it caught. */
  datatype Fetch = Loaded(data: seq<Contact>) | Failed(message: string)

  datatype ContactsState = ContactsState(contacts: seq<Contact>, loading: bool, error: Option<string>)

  /** `fetchContacts` (lines 11-36), once the request has settled. */
  function FetchContacts(st: ContactsState, result: Fetch): (r: ContactsState) {
    match result
    case Loaded(data) => ContactsState(data, false, None)
    case Failed(m) => ContactsState(st.contacts, false, Some(m))
  }

  /** The updater of `addContact` (lines 43-60), with `now` standing for `new Date().toISOString()`. */
  function WithContact(prev: seq<Contact>, newContact: Contact, now: string): (r: seq<Contact>) {
    match FindIndex(prev, HasId(newContact.id))
    case Some(i) => [prev[i].(lastMessageAt := now)] + (prev[..i] + prev[i + 1..])
    case None => [newContact.(lastMessageAt := now)] + prev
  }

  /** At most one entry per id. */
  ghost predicate UniqueIds(cs: seq<Contact>) {
    forall i, j :: 0 <= i < j < |cs| ==> cs[i].id != cs[j].id
  }

  class DmContactsHook {
    var contacts: seq<Contact>
    var loading: bool
    var error: Option<string>

    function State(): ContactsState
      reads this
    {
      ContactsState(contacts, loading, error)
    }

    constructor ()
      ensures State() == ContactsState([], true, None)
    {
      contacts := [];
      loading := true;
      error := None;
    }

    /** The request settling: the body replaces the list, or the error is recorded. */
    method HandleFetched(result: Fetch)
      modifies this
      ensures State() == FetchContacts(old(State()), result)
    {
      if result.Loaded? {
        contacts := result.data;
        error := None;
      } else {
        error := Some(result.message);
      }
      loading := false;
    }

    /** `addContact`: `findIndex`, then a `splice` on a copy, then the prepend. */
    method AddContact(newContact: Contact, now: string)
      modifies this
      ensures State() == old(State()).(contacts := WithContact(old(contacts), newContact, now))
    {
      var i := 0;
      while i < |contacts| && contacts[i].id != newContact.id
        invariant 0 <= i <= |contacts|
        invariant forall j :: 0 <= j < i ==> contacts[j].id != newContact.id
      {
        i := i + 1;
      }
      if i < |contacts| {
        var updated := contacts[..i] + contacts[i + 1..];
        var existing := contacts[i];
        assert HasId(newContact.id)(contacts[i]) && contacts[i] in contacts;
        assert FindIndex(contacts, HasId(newContact.id)) == Some(i);
        contacts := [existing.(lastMessageAt := now)] + updated;
      } else {
        contacts := [newContact.(lastMessageAt := now)] + contacts;
      }
    }
  }

  // ---- Properties ----

  /**
   * An existing id (first found at `i`) keeps the length, moves to the front keeping its own fields except
   * `lastMessageAt`, and the others stay in their relative order.
   */
  lemma MovesExistingToFront(prev: seq<Contact>, newContact: Contact, now: string, i: nat)
    requires i < |prev| && prev[i].id == newContact.id
    requires forall j :: 0 <= j < i ==> prev[j].id != newContact.id
    ensures var r := WithContact(prev, newContact, now);
      && |r| == |prev|
      && r[0] == prev[i].(lastMessageAt := now)
      && r[1..] == prev[..i] + prev[i + 1..]
  {
    var k := FindIndex(prev, HasId(newContact.id));
    assert HasId(newContact.id)(prev[i]) && prev[i] in prev;
    assert k.Some?;
    assert k.value == i;
  }

  /** A new id is prepended and the previous contacts follow in order. */
  lemma PrependsNew(prev: seq<Contact>, newContact: Contact, now: string)
    requires forall c :: c in prev ==> c.id != newContact.id
    ensures var r := WithContact(prev, newContact, now);
      && |r| == |prev| + 1
      && r[0] == newContact.(lastMessageAt := now)
      && r[1..] == prev
  {
  }

  /** With at most one entry per id before, there is exactly one entry with the added id after, at the front. */
  lemma {:induction false} AddKeepsIdsUnique(prev: seq<Contact>, newContact: Contact, now: string)
    requires UniqueIds(prev)
    ensures UniqueIds(WithContact(prev, newContact, now))
    ensures WithContact(prev, newContact, now)[0].id == newContact.id
    ensures forall k :: 0 < k < |WithContact(prev, newContact, now)| ==> WithContact(prev, newContact, now)[k].id != newContact.id
  {
    var r := WithContact(prev, newContact, now);
    match FindIndex(prev, HasId(newContact.id))
    case Some(i) =>
      var rest := prev[..i] + prev[i + 1..];
      assert r == [prev[i].(lastMessageAt := now)] + rest;
      forall k | 0 < k < |r| ensures r[k] == (if k - 1 < i then prev[k - 1] else prev[k]) {
        assert r[k] == rest[k - 1];
      }
      forall a, b | 0 <= a < b < |r| ensures r[a].id != r[b].id {
        var pb := if b - 1 < i then b - 1 else b;
        if a == 0 {
          assert pb != i;
        } else {
          var pa := if a - 1 < i then a - 1 else a;
          assert pa < pb;
        }
      }
    case None =>
      forall a, b | 0 <= a < b < |r| ensures r[a].id != r[b].id {
        if a == 0 {
          assert r[b] == prev[b - 1];
          assert r[b] in prev;
        } else {
          assert r[a] == prev[a - 1] && r[b] == prev[b - 1];
        }
      }
  }
}
