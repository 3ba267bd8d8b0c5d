/** Mailing a caller a hospital list: a prepared request, a re-check, and an outbox row with a unique
    key. Any number of senders share the database, and any of them may die at any point. */
module MailOutbox {

  import opened Wrappers

  /** An address as spelt, and with its case folded. */
  datatype Email = Email(spelling: string, folded: string)

  datatype Contact = Contact(phone: string, email: Option<Email>)

  /** Who a mailer works for; the phone is the caller's, when the call was verified. */
  datatype Scope = Scope(business: string, agent: string, session: string, phone: Option<string>)

  type Filters = string

  datatype Prepared = Prepared(contact: Contact, recipient: Email, alternate: bool, filters: Filters)

  datatype Mailer = Mailer(scope: Scope, prepared: Option<Prepared>)

  /** The unique key of an outbox row. */
  datatype RowKey = RowKey(business: string, agent: string, session: string, filters: Filters, recipient: string)

  datatype Status = Sending | Accepted | Failed | Unknown

  /** Where a send is: waiting for the fresh list, between its queries, or with the mail service. */
  datatype At = LookingUp | Selecting | Inserting | Submitting | Waiting | Over

  datatype Send = Send(scope: Scope, prepared: Prepared, checked: Contact, confirmed: bool, at: At)

  /** A mail submitted, with what its send was prepared from and checked against. */
  datatype Submission = Submission(key: RowKey, prepared: Prepared, checked: Contact, confirmed: bool)

  datatype World = World(mailers: seq<Mailer>, sends: seq<Send>, contacts: map<(string, string), Option<Email>>,
                         outbox: map<RowKey, Status>, submissions: seq<Submission>)
  {
    function VerifiedContact(scope: Scope): Option<Contact> {
      if scope.phone.Some? && (scope.business, scope.phone.value) in contacts then
        Some(Contact(scope.phone.value, contacts[(scope.business, scope.phone.value)]))
      else None
    }

    function Moved(k: nat, at: At): World
      requires k < |sends|
    {
      this.(sends := sends[k := sends[k].(at := at)])
    }
  }

  function RowFor(scope: Scope, prepared: Prepared): RowKey {
    RowKey(scope.business, scope.agent, scope.session, prepared.filters, prepared.recipient.folded)
  }

  function RowOf(send: Send): RowKey {
    RowFor(send.scope, send.prepared)
  }

  /** What prepare keeps for the send: the saved address unless the caller gave another one. */
  function Preparing(contact: Option<Contact>, filters: Option<Filters>, asked: Option<Email>): Option<Prepared> {
    if contact.None? || filters.None? then None
    else
      var saved := contact.value.email;
      if asked.Some? && (saved.None? || asked.value.folded != saved.value.folded) then
        Some(Prepared(contact.value, asked.value, true, filters.value))
      else if saved.None? then None
      else Some(Prepared(contact.value, saved.value, false, filters.value))
  }

  /** What send checks before it looks anything up. */
  predicate MaySend(w: World, mailer: Mailer, confirmed: bool) {
    && mailer.prepared.Some?
    && (mailer.prepared.value.alternate ==> confirmed)
    && w.VerifiedContact(mailer.scope) == Some(mailer.prepared.value.contact)
  }

  datatype Input =
    | MailerCreated(scope: Scope)
    | PrepareCalled(mailer: nat, filters: Option<Filters>, asked: Option<Email>)
    | SendCalled(mailer: nat, confirmed: bool, configured: bool)
    | LookupReturns(send: nat, found: bool)
    | SelectRuns(send: nat)
    | InsertRuns(send: nat)
    | MailGoesOut(send: nat)
    | ServiceReplies(send: nat, status: Status)
    | Dies(send: nat)
    | ContactChanges(business: string, phone: string, email: Option<Option<Email>>)

  predicate IsAt(w: World, k: nat, at: At) {
    k < |w.sends| && w.sends[k].at == at
  }

  function Step(w: World, input: Input): World {
    match input
    case MailerCreated(scope) => w.(mailers := w.mailers + [Mailer(scope, None)])
    case PrepareCalled(m, filters, asked) =>
      if m >= |w.mailers| then w
      else
        var prepared := Preparing(w.VerifiedContact(w.mailers[m].scope), filters, asked);
        w.(mailers := w.mailers[m := w.mailers[m].(prepared := prepared)])
    case SendCalled(m, confirmed, configured) =>
      if m >= |w.mailers| then w
      else
        var mailer := w.mailers[m];
        var taken := w.(mailers := w.mailers[m := mailer.(prepared := None)]);
        if MaySend(w, mailer, confirmed) && configured then
          taken.(sends := w.sends + [Send(mailer.scope, mailer.prepared.value, w.VerifiedContact(mailer.scope).value,
                                          confirmed, LookingUp)])
        else taken
    case LookupReturns(k, found) =>
      if IsAt(w, k, LookingUp) then w.Moved(k, if found then Selecting else Over) else w
    case SelectRuns(k) =>
      if IsAt(w, k, Selecting) then w.Moved(k, if RowOf(w.sends[k]) in w.outbox then Over else Inserting) else w
    case InsertRuns(k) =>
      if !IsAt(w, k, Inserting) then w
      else if RowOf(w.sends[k]) in w.outbox then w.Moved(k, Over)
      else w.(outbox := w.outbox[RowOf(w.sends[k]) := Sending]).Moved(k, Submitting)
    case MailGoesOut(k) =>
      if IsAt(w, k, Submitting) then
        var send := w.sends[k];
        w.(submissions := w.submissions + [Submission(RowOf(send), send.prepared, send.checked, send.confirmed)])
         .Moved(k, Waiting)
      else w
    case ServiceReplies(k, status) =>
      if IsAt(w, k, Waiting) then w.(outbox := w.outbox[RowOf(w.sends[k]) := status]).Moved(k, Over) else w
    case Dies(k) => if k < |w.sends| then w.Moved(k, Over) else w
    case ContactChanges(business, phone, email) =>
      w.(contacts := if email.Some? then w.contacts[(business, phone) := email.value]
                     else w.contacts - {(business, phone)})
  }

  function Run(w: World, inputs: seq<Input>): World
    decreases |inputs|
  {
    if inputs == [] then w else Run(Step(w, inputs[0]), inputs[1..])
  }

  /** A world whose outbox and contacts come from earlier runs. */
  function Restarted(contacts: map<(string, string), Option<Email>>, outbox: map<RowKey, Status>): World {
    World([], [], contacts, outbox, [])
  }

  // ---------- what each step does ----------

  /** The contact of a verified caller: the row saved for the phone of the call, if there is one. */
  ghost predicate IsContact(w: World, scope: Scope, contact: Contact) {
    && scope.phone == Some(contact.phone)
    && (scope.business, contact.phone) in w.contacts && w.contacts[(scope.business, contact.phone)] == contact.email
  }

  lemma ContactExactly(w: World, scope: Scope, contact: Contact)
    ensures w.VerifiedContact(scope) == Some(contact) <==> IsContact(w, scope, contact)
    ensures w.VerifiedContact(scope).None? <==> forall contact :: !IsContact(w, scope, contact)
  {
    if w.VerifiedContact(scope).Some? { assert IsContact(w, scope, w.VerifiedContact(scope).value); }
  }

  /** Preparing keeps, for a verified caller and a valid search, the saved address, or another one that
      the caller gave; it keeps nothing otherwise, and drops what was prepared before. */
  lemma PreparesExactly(w: World, m: nat, filters: Option<Filters>, asked: Option<Email>, prepared: Prepared)
    requires m < |w.mailers|
    ensures var t := Step(w, PrepareCalled(m, filters, asked));
            && t == w.(mailers := w.mailers[m := Mailer(w.mailers[m].scope, t.mailers[m].prepared)])
            && (t.mailers[m].prepared == Some(prepared)
                <==> && filters == Some(prepared.filters) && IsContact(w, w.mailers[m].scope, prepared.contact)
                     && var saved := prepared.contact.email;
                        var others := asked.Some? && (saved.None? || saved.value.folded != asked.value.folded);
                        if others then prepared.alternate && asked == Some(prepared.recipient)
                        else !prepared.alternate && saved == Some(prepared.recipient))
  {
    ContactExactly(w, w.mailers[m].scope, prepared.contact);
  }

  /** Sending takes what was prepared, and begins exactly when there is something prepared, an address
      other than the saved one is confirmed, the contact is as it was, and mail is set up. */
  lemma SendsExactly(w: World, m: nat, confirmed: bool, configured: bool)
    requires m < |w.mailers|
    ensures var t, mailer := Step(w, SendCalled(m, confirmed, configured)), w.mailers[m];
            var begins := mailer.prepared.Some? && (mailer.prepared.value.alternate ==> confirmed) && configured
                          && IsContact(w, mailer.scope, mailer.prepared.value.contact);
            && t == w.(mailers := w.mailers[m := Mailer(mailer.scope, None)], sends := t.sends)
            && t.sends == w.sends + if begins then [Send(mailer.scope, mailer.prepared.value,
                                                         mailer.prepared.value.contact, confirmed, LookingUp)]
                                    else []
  {
    var mailer := w.mailers[m];
    if mailer.prepared.Some? { ContactExactly(w, mailer.scope, mailer.prepared.value.contact); }
    assert w.sends + [] == w.sends;
  }

  /** A send goes on from each place as follows, and gives up where its row is there already; only the
      insertion and the service's answer touch the outbox, and only the mail itself is submitted. */
  lemma ProgressExactly(w: World, k: nat, found: bool, status: Status)
    requires k < |w.sends|
    ensures var at, row := w.sends[k].at, RowOf(w.sends[k]);
            && Step(w, LookupReturns(k, found))
               == (if at == LookingUp then w.Moved(k, if found then Selecting else Over) else w)
            && Step(w, SelectRuns(k))
               == (if at == Selecting then w.Moved(k, if row in w.outbox then Over else Inserting) else w)
            && Step(w, InsertRuns(k))
               == (if at != Inserting then w else if row in w.outbox then w.Moved(k, Over)
                   else w.(outbox := w.outbox[row := Sending]).Moved(k, Submitting))
            && Step(w, ServiceReplies(k, status))
               == (if at == Waiting then w.(outbox := w.outbox[row := status]).Moved(k, Over) else w)
            && Step(w, Dies(k)) == w.Moved(k, Over)
            && w.Moved(k, Over) == w.(sends := w.sends[k := w.sends[k].(at := Over)])
  {
  }

  /** A mail is submitted exactly when a send that has its row goes on, once. */
  lemma SubmitsExactly(w: World, input: Input)
    ensures Step(w, input).submissions
            == if input.MailGoesOut? && input.send < |w.sends| && w.sends[input.send].at == Submitting then
                 var send := w.sends[input.send];
                 w.submissions + [Submission(RowKey(send.scope.business, send.scope.agent, send.scope.session,
                                                    send.prepared.filters, send.prepared.recipient.folded),
                                             send.prepared, send.checked, send.confirmed)]
               else w.submissions
  {
  }

  /** The contacts change from outside, and new mailers have nothing prepared. */
  lemma OthersExactly(w: World, scope: Scope, business: string, phone: string, email: Option<Option<Email>>,
                      key: (string, string))
    ensures Step(w, MailerCreated(scope)) == w.(mailers := w.mailers + [Mailer(scope, None)])
    ensures var t := Step(w, ContactChanges(business, phone, email));
            && t == w.(contacts := t.contacts)
            && (key in t.contacts <==> if key == (business, phone) then email.Some? else key in w.contacts)
            && (key in t.contacts ==>
                  Some(t.contacts[key]) == if key == (business, phone) then email else Some(w.contacts[key]))
  {
  }

  // ---------- at most once ----------

  predicate Holds(send: Send) {
    send.at.Submitting? || send.at.Waiting?
  }

  /** A send that has its row is alone in that, and has not submitted its mail unless it waits. */
  ghost predicate AtMostOnce(w: World) {
    && (forall k :: 0 <= k < |w.sends| && Holds(w.sends[k]) ==> RowOf(w.sends[k]) in w.outbox)
    && (forall k, l :: 0 <= k < l < |w.sends| && Holds(w.sends[k]) && Holds(w.sends[l]) ==>
          RowOf(w.sends[k]) != RowOf(w.sends[l]))
    && (forall i :: 0 <= i < |w.submissions| ==> w.submissions[i].key in w.outbox)
    && (forall i, j :: 0 <= i < j < |w.submissions| ==> w.submissions[i].key != w.submissions[j].key)
    && (forall i, k :: 0 <= i < |w.submissions| && 0 <= k < |w.sends| && w.sends[k].at.Submitting? ==>
          w.submissions[i].key != RowOf(w.sends[k]))
  }

  lemma LettingGoKeeps(w: World, k: nat, at: At)
    requires AtMostOnce(w) && k < |w.sends| && !at.Submitting? && !at.Waiting?
    ensures AtMostOnce(w.Moved(k, at))
  {
    hide RowFor;
    SameRows(w, k, at);
  }

  lemma SameRows(w: World, k: nat, at: At)
    requires k < |w.sends|
    ensures forall l :: 0 <= l < |w.sends| ==> RowOf(w.Moved(k, at).sends[l]) == RowOf(w.sends[l])
    ensures forall l :: 0 <= l < |w.sends| && l != k ==> w.Moved(k, at).sends[l] == w.sends[l]
  {
  }

  lemma InsertKeeps(w: World, k: nat)
    requires AtMostOnce(w) && k < |w.sends| && RowOf(w.sends[k]) !in w.outbox
    ensures AtMostOnce(w.(outbox := w.outbox[RowOf(w.sends[k]) := Sending]).Moved(k, Submitting))
  {
    hide RowOf;
    SameRows(w, k, Submitting);
  }

  lemma SubmitKeeps(w: World, k: nat, submission: Submission)
    requires AtMostOnce(w) && IsAt(w, k, Submitting) && submission.key == RowOf(w.sends[k])
    ensures AtMostOnce(w.(submissions := w.submissions + [submission]).Moved(k, Waiting))
  {
    hide RowOf;
    SameRows(w, k, Waiting);
  }

  lemma StepKeepsAtMostOnce(w: World, input: Input)
    requires AtMostOnce(w)
    ensures AtMostOnce(Step(w, input))
  {
    hide MaySend, Preparing, World.VerifiedContact, World.Moved, RowOf, AtMostOnce;
    match input
    case LookupReturns(k, found) =>
      if IsAt(w, k, LookingUp) { LettingGoKeeps(w, k, if found then Selecting else Over); }
    case SelectRuns(k) =>
      if IsAt(w, k, Selecting) { LettingGoKeeps(w, k, if RowOf(w.sends[k]) in w.outbox then Over else Inserting); }
    case InsertRuns(k) =>
      if IsAt(w, k, Inserting) {
        if RowOf(w.sends[k]) in w.outbox { LettingGoKeeps(w, k, Over); } else { InsertKeeps(w, k); }
      }
    case MailGoesOut(k) =>
      if IsAt(w, k, Submitting) {
        var send := w.sends[k];
        SubmitKeeps(w, k, Submission(RowOf(send), send.prepared, send.checked, send.confirmed));
      }
    case ServiceReplies(k, status) => if IsAt(w, k, Waiting) { ReplyKeeps(w, k, status); }
    case Dies(k) => if k < |w.sends| { LettingGoKeeps(w, k, Over); }
    case _ => OthersKeep(w, input);
  }

  lemma ReplyKeeps(w: World, k: nat, status: Status)
    requires AtMostOnce(w) && k < |w.sends|
    ensures AtMostOnce(w.(outbox := w.outbox[RowOf(w.sends[k]) := status]).Moved(k, Over))
  {
    hide RowOf;
    SameRows(w, k, Over);
  }

  lemma OthersKeep(w: World, input: Input)
    requires AtMostOnce(w)
    requires input.MailerCreated? || input.PrepareCalled? || input.SendCalled? || input.ContactChanges?
    ensures AtMostOnce(Step(w, input))
  {
    hide MaySend, Preparing, World.VerifiedContact, RowOf;
  }

  // ---------- to the right address ----------

  /** The saved address, or another one that is not the saved one. */
  predicate Addressed(prepared: Prepared) {
    var saved := prepared.contact.email;
    if prepared.alternate then saved.None? || saved.value.folded != prepared.recipient.folded
    else saved == Some(prepared.recipient)
  }

  /** The contact it was prepared for was still the saved one when the send began, and an address
      other than the saved one was confirmed. */
  predicate Consented(prepared: Prepared, checked: Contact, confirmed: bool) {
    Addressed(prepared) && checked == prepared.contact && (prepared.alternate ==> confirmed)
  }

  ghost predicate MailersAddressed(w: World) {
    forall m :: 0 <= m < |w.mailers| && w.mailers[m].prepared.Some? ==> Addressed(w.mailers[m].prepared.value)
  }

  ghost predicate SendsConsented(w: World) {
    forall k :: 0 <= k < |w.sends| ==> Consented(w.sends[k].prepared, w.sends[k].checked, w.sends[k].confirmed)
  }

  predicate Rightful(mail: Submission) {
    Consented(mail.prepared, mail.checked, mail.confirmed) && mail.key.recipient == mail.prepared.recipient.folded
  }

  ghost predicate AllConsented(w: World) {
    && MailersAddressed(w) && SendsConsented(w)
    && (forall i :: 0 <= i < |w.submissions| ==> Rightful(w.submissions[i]))
  }

  lemma PreparingAddresses(contact: Option<Contact>, filters: Option<Filters>, asked: Option<Email>)
    ensures var prepared := Preparing(contact, filters, asked);
            prepared.Some? ==> Addressed(prepared.value)
  {
  }

  lemma MailersStayAddressed(w: World, input: Input)
    requires MailersAddressed(w)
    ensures MailersAddressed(Step(w, input))
  {
    hide World.VerifiedContact, Preparing, Addressed, MaySend, RowFor;
    if input.PrepareCalled? && input.mailer < |w.mailers| {
      PreparingAddresses(w.VerifiedContact(w.mailers[input.mailer].scope), input.filters, input.asked);
    }
  }

  lemma SendsStayConsented(w: World, input: Input)
    requires MailersAddressed(w) && SendsConsented(w)
    ensures SendsConsented(Step(w, input))
  {
    hide World.VerifiedContact, Preparing, Addressed, RowFor;
  }

  lemma StepKeepsConsent(w: World, input: Input)
    requires AllConsented(w)
    ensures AllConsented(Step(w, input))
  {
    hide World.VerifiedContact, Preparing, Consented, MaySend, MailersAddressed;
    MailersStayAddressed(w, input);
    SendsStayConsented(w, input);
  }

  // ---------- runs ----------

  lemma {:induction false} RunKeeps(w: World, inputs: seq<Input>)
    requires AtMostOnce(w) && AllConsented(w)
    ensures AtMostOnce(Run(w, inputs)) && AllConsented(Run(w, inputs))
    decreases |inputs|
  {
    hide AtMostOnce, AllConsented, Step;
    if inputs != [] {
      StepKeepsAtMostOnce(w, inputs[0]);
      StepKeepsConsent(w, inputs[0]);
      RunKeeps(Step(w, inputs[0]), inputs[1..]);
    }
  }

  /** Whatever the mailers do, and wherever they die: at most one mail is submitted for a business,
      agent, session, search and recipient, none if a row survives from before a restart, and none
      to an address the caller did not ask for or confirm. */
  lemma MailedAtMostOnce(contacts: map<(string, string), Option<Email>>, outbox: map<RowKey, Status>,
                         inputs: seq<Input>)
    ensures var sent := Run(Restarted(contacts, outbox), inputs).submissions;
            && (forall i, j :: 0 <= i < j < |sent| ==> sent[i].key != sent[j].key)
            && (forall i :: 0 <= i < |sent| ==> Rightful(sent[i]))
            && (forall i :: 0 <= i < |sent| ==> sent[i].key !in outbox)
  {
    hide Run;
    RunKeeps(Restarted(contacts, outbox), inputs);
    forall key | key in outbox
      ensures !Mailed(Run(Restarted(contacts, outbox), inputs), key)
    {
      RecordedForGood(Restarted(contacts, outbox), key, inputs);
    }
  }

  /** The row is there, and no sender is about to submit its mail. */
  ghost predicate Recorded(w: World, key: RowKey) {
    key in w.outbox && forall k :: 0 <= k < |w.sends| && w.sends[k].at.Submitting? ==> RowOf(w.sends[k]) != key
  }

  ghost predicate Mailed(w: World, key: RowKey) {
    exists i :: 0 <= i < |w.submissions| && w.submissions[i].key == key
  }

  lemma StaysRecorded(w: World, key: RowKey, input: Input)
    requires Recorded(w, key)
    ensures Recorded(Step(w, input), key)
  {
    hide MaySend, Preparing, World.VerifiedContact, RowFor;
  }

  lemma MailedStays(w: World, key: RowKey, input: Input)
    requires Recorded(w, key)
    ensures Mailed(Step(w, input), key) <==> Mailed(w, key)
  {
    hide MaySend, Preparing, World.VerifiedContact, RowOf;
    var t := Step(w, input);
    if Mailed(w, key) {
      var i :| 0 <= i < |w.submissions| && w.submissions[i].key == key;
      assert t.submissions[i] == w.submissions[i];
    }
  }

  /** Once the row is there without its sender, what was not mailed never will be: a sender that died
      between the two is not made up for. */
  lemma {:induction false} RecordedForGood(w: World, key: RowKey, inputs: seq<Input>)
    requires Recorded(w, key)
    ensures Recorded(Run(w, inputs), key) && (Mailed(Run(w, inputs), key) <==> Mailed(w, key))
    decreases |inputs|
  {
    hide Recorded, Mailed, Step;
    if inputs != [] {
      StaysRecorded(w, key, inputs[0]);
      MailedStays(w, key, inputs[0]);
      RecordedForGood(Step(w, inputs[0]), key, inputs[1..]);
    }
  }

  function Mails(w: World, k: nat): World {
    Step(Step(Step(Step(w, LookupReturns(k, true)), SelectRuns(k)), InsertRuns(k)), MailGoesOut(k))
  }

  /** From the lookup on, an unrecorded send goes through, whatever the contact is by then. */
  lemma LookupToMail(w: World, k: nat)
    requires IsAt(w, k, LookingUp) && RowOf(w.sends[k]) !in w.outbox
    ensures var send := w.sends[k];
            Mails(w, k).submissions ==
            w.submissions + [Submission(RowOf(send), send.prepared, send.checked, send.confirmed)]
  {
    hide RowFor;
  }

  /** The check comes before the list is looked up: a contact that changes meanwhile is mailed at the
      address it was prepared for. */
  lemma ChangeDuringLookupIsMissed(w: World, m: nat, business: string, phone: string, changed: Option<Option<Email>>)
    requires m < |w.mailers| && MaySend(w, w.mailers[m], false)
    requires RowFor(w.mailers[m].scope, w.mailers[m].prepared.value) !in w.outbox
    ensures var k, prepared := |w.sends|, w.mailers[m].prepared.value;
            Mails(Step(Step(w, SendCalled(m, false, true)), ContactChanges(business, phone, changed)), k).submissions ==
            w.submissions + [Submission(RowFor(w.mailers[m].scope, prepared), prepared, prepared.contact, false)]
  {
    hide RowFor, Mails;
    LookupToMail(Step(Step(w, SendCalled(m, false, true)), ContactChanges(business, phone, changed)), |w.sends|);
  }
}
