/** The decisions the send, draft, upload and empty paths take, apart from
    the requests and the cryptography around them: the per-recipient
    package flags, the encryption marker of a sent draft, the reply-status
    flags of the original message, the send error codes, the public-key
    upload decision and the draft create-or-update choice. */
module SendRules {
  import opened Common

  // ---------------------------------------------------------------------
  // Per-recipient flags (`PreAddress`).

  /** A key lookup result: fulfilled with the recipient type and first key,
      or rejected with an error code. */
  datatype KeyResult = Fulfilled(recipientType: int, firstKey: Option<string>) | Rejected(code: int)

  /** A pinned contact: its first PGP key and its sending preferences. */
  datatype Contact = Contact(email: string, firstPgpKey: Option<string>, mime: bool, sign: bool, encrypt: bool, plainText: bool)

  /** The package description of one recipient. */
  datatype PreAddress = PreAddress(
    email: string, pubKey: Option<string>, pgpKey: Option<string>, recipientType: int,
    eo: bool, mime: bool, sign: bool, pgpEncrypt: bool, plainText: bool)

  /** `contacts.find(email:)`: the first contact with exactly that address. */
  function FindContact(cs: seq<Contact>, email: string): (r: Option<Contact>)
    ensures r.Some? ==> r.value in cs && r.value.email == email
    ensures r.None? ==> forall c :: c in cs ==> c.email != email
    decreases |cs|
  {
    if cs == [] then None
    else if cs[0].email == email then Some(cs[0])
    else FindContact(cs[1..], email)
  }

  /** Of several contacts with the address, the earliest is found. */
  lemma {:induction false} FindContactFirst(cs: seq<Contact>, email: string, i: nat)
    requires i < |cs| && cs[i].email == email
    requires forall j :: 0 <= j < i ==> cs[j].email != email
    ensures FindContact(cs, email) == Some(cs[i])
    decreases |cs|
  {
    if i > 0 {
      FindContactFirst(cs[1..], email, i - 1);
    }
  }

  /** An internal recipient with a pinned contact is signed, not PGP
      encrypted and not MIME, with the server key and the pinned key; any
      other pinned contact follows its own preferences and has no server
      key; a recipient without a contact gets the server key and every
      flag off. */
  function Address(email: string, recipientType: int, firstKey: Option<string>, contact: Option<Contact>, isEO: bool): (r: PreAddress)
    ensures r.email == email && r.recipientType == recipientType && r.eo == isEO
    ensures contact.None? ==> r.pubKey == firstKey && r.pgpKey.None? && !r.mime && !r.sign && !r.pgpEncrypt && !r.plainText
    ensures contact.Some? && recipientType == 1 ==>
      r.pubKey == firstKey && r.pgpKey == contact.value.firstPgpKey && !r.mime && r.sign && !r.pgpEncrypt && r.plainText == contact.value.plainText
    ensures contact.Some? && recipientType != 1 ==>
      && r.pubKey.None? && r.pgpKey == contact.value.firstPgpKey
      && r.mime == contact.value.mime && r.sign == contact.value.sign
      && r.pgpEncrypt == contact.value.encrypt && r.plainText == contact.value.plainText
  {
    match contact
    case Some(c) =>
      if recipientType == 1 then PreAddress(email, firstKey, c.firstPgpKey, recipientType, isEO, false, true, false, c.plainText)
      else PreAddress(email, None, c.firstPgpKey, recipientType, isEO, c.mime, c.sign, c.encrypt, c.plainText)
    case None => PreAddress(email, firstKey, None, recipientType, isEO, false, false, false, false)
  }

  /** The result of building the recipient list: the addresses, or the
      code of the first rejected lookup, which aborts the send. */
  datatype Built = Addresses(addrs: seq<PreAddress>) | Aborted(code: int)

  /** The loop over the key lookups, paired with the addresses they were
      made for, in order. */
  function BuildAddresses(lookups: seq<(string, KeyResult)>, contacts: seq<Contact>, isEO: bool): (r: Built)
    ensures r.Addresses? ==> |r.addrs| == |lookups|
    ensures r.Addresses? <==> forall i :: 0 <= i < |lookups| ==> lookups[i].1.Fulfilled?
    decreases |lookups|
  {
    if lookups == [] then Addresses([])
    else
      var (email, res) := lookups[0];
      match res
      case Rejected(code) => Aborted(code)
      case Fulfilled(t, k) =>
        match BuildAddresses(lookups[1..], contacts, isEO)
        case Aborted(code) => Aborted(code)
        case Addresses(rest) => Addresses([Address(email, t, k, FindContact(contacts, email), isEO)] + rest)
  }

  /** When every lookup is fulfilled, the i-th address is the one built
      for the i-th lookup; when one is rejected, the first rejection's code
      is reported. */
  lemma {:induction false} BuildAddressesAt(lookups: seq<(string, KeyResult)>, contacts: seq<Contact>, isEO: bool, i: nat)
    requires BuildAddresses(lookups, contacts, isEO).Addresses? && i < |lookups|
    ensures var a := BuildAddresses(lookups, contacts, isEO).addrs[i];
      var (email, res) := lookups[i];
      a == Address(email, res.recipientType, res.firstKey, FindContact(contacts, email), isEO)
    decreases |lookups|
  {
    if i > 0 {
      BuildAddressesAt(lookups[1..], contacts, isEO, i - 1);
    }
  }

  lemma {:induction false} BuildAbortsAtFirst(lookups: seq<(string, KeyResult)>, contacts: seq<Contact>, isEO: bool, j: nat)
    requires j < |lookups| && lookups[j].1.Rejected?
    requires forall i :: 0 <= i < j ==> lookups[i].1.Fulfilled?
    ensures BuildAddresses(lookups, contacts, isEO) == Aborted(lookups[j].1.code)
    decreases |lookups|
  {
    if j > 0 {
      BuildAbortsAtFirst(lookups[1..], contacts, isEO, j - 1);
    }
  }

  // ---------------------------------------------------------------------
  // After a successful send.

  /** `Message.EncryptType` markers of a sent draft. */
  datatype EncryptType = Inner | OutEnc | OutPlain

  /** Encrypted-outside messages to an outside user are `outEnc`, plain
      messages to an outside user `outPlain`, everything else `inner`. */
  function EncryptionOf(isEO: bool, outSideUser: bool): (r: EncryptType)
    ensures r == OutEnc <==> isEO && outSideUser
    ensures r == OutPlain <==> !isEO && outSideUser
    ensures r == Inner <==> !outSideUser
  {
    if isEO then (if outSideUser then OutEnc else Inner)
    else (if outSideUser then OutPlain else Inner)
  }

  /** The reply-status flags of the original message. */
  datatype ReplyFlags = ReplyFlags(replied: bool, repliedAll: bool, forwarded: bool)

  /** `markReplyStatus`: action 0 marks replied, 1 replied-all, 2
      forwarded; any other value is ignored. Only with a non-empty original
      id, an action, and the original message found. */
  function MarkReply(f: ReplyFlags, originalID: Option<string>, action: Option<int>, found: bool): (r: ReplyFlags)
    ensures originalID.None? || originalID == Some("") || action.None? || !found ==> r == f
    ensures originalID.Some? && originalID.value != "" && action.Some? && found ==>
      && r.replied == (f.replied || action.value == 0)
      && r.repliedAll == (f.repliedAll || action.value == 1)
      && r.forwarded == (f.forwarded || action.value == 2)
  {
    if originalID.Some? && |originalID.value| > 0 && action.Some? && found then
      var a := action.value;
      if a == 0 then f.(replied := true)
      else if a == 1 then f.(repliedAll := true)
      else if a == 2 then f.(forwarded := true)
      else f
    else f
  }

  /** At most one flag is raised, none is ever lowered, and marking twice
      is marking once. */
  lemma MarkReplyIdempotent(f: ReplyFlags, originalID: Option<string>, action: Option<int>, found: bool)
    ensures var r := MarkReply(f, originalID, action, found);
      && MarkReply(r, originalID, action, found) == r
      && (f.replied ==> r.replied) && (f.repliedAll ==> r.repliedAll) && (f.forwarded ==> r.forwarded)
      && ((if r.replied != f.replied then 1 else 0) + (if r.repliedAll != f.repliedAll then 1 else 0)
          + (if r.forwarded != f.forwarded then 1 else 0)) <= 1
  {
  }

  // ---------------------------------------------------------------------
  // Send failures.

  /** The error code asking for a human check. */
  const HumanCheckCode := 9001
  /** The error code with its own sending-error toast. */
  const SendErrorCode := 15198

  /** Which alert a failed send raises: the sent-error toast, the generic
      error toast, or, when the send threw, the sent-error alert with the
      error's details. */
  datatype SendAlert = SentErrorToast | ErrorToast | SentErrorDetails

  /** An error answer shows the sent-error toast for 9001 and 15198 and the
      generic toast otherwise; a thrown error shows the detailed alert
      whatever its code. */
  function AlertFor(code: int, thrown: bool): (r: SendAlert)
    ensures thrown <==> r == SentErrorDetails
    ensures !thrown ==> (r == SentErrorToast <==> code == HumanCheckCode || code == SendErrorCode)
  {
    if thrown then SentErrorDetails
    else if code == HumanCheckCode || code == SendErrorCode then SentErrorToast
    else ErrorToast
  }

  /** Why a send stops before any key lookup, through the error block,
      which also removes the send's queue entry (`SendPrecheck` in the
      service): no message for the URI, a message without a server id, a
      message outside a context, or missing credentials. */
  datatype SendAbort = BadParameter | BadDraft | Locked

  function SendGuard(found: bool, messageID: string, inContext: bool, hasCredentials: bool): (r: Option<SendAbort>)
    ensures r.None? <==> found && messageID != "" && inContext && hasCredentials
    ensures !found || messageID == "" ==> r == Some(BadParameter)
    ensures found && messageID != "" && !inContext ==> r == Some(BadDraft)
    ensures found && messageID != "" && inContext && !hasCredentials ==> r == Some(Locked)
  {
    if !found || |messageID| == 0 then Some(BadParameter)
    else if !inContext then Some(BadDraft)
    else if !hasCredentials then Some(Locked)
    else None
  }

  // ---------------------------------------------------------------------
  // Public-key upload and draft save.

  /** `uploadPubKey`: the key is uploaded as an attachment iff some
      fulfilled lookup has recipient type 2; rejected lookups are skipped. */
  function ShouldUploadPubKey(results: seq<KeyResult>): (r: bool)
    ensures r <==> exists i :: 0 <= i < |results| && results[i].Fulfilled? && results[i].recipientType == 2
    decreases |results|
  {
    if results == [] then false
    else if results[0].Fulfilled? && results[0].recipientType == 2 then true
    else
      var rest := ShouldUploadPubKey(results[1..]);
      assert rest ==> exists i :: 0 <= i < |results| && results[i].Fulfilled? && results[i].recipientType == 2 by {
        if rest {
          var i :| 0 <= i < |results[1..]| && results[1..][i].Fulfilled? && results[1..][i].recipientType == 2;
          assert results[i + 1] == results[1..][i];
        }
      }
      assert (exists i :: 0 <= i < |results| && results[i].Fulfilled? && results[i].recipientType == 2) ==> rest by {
        if exists i :: 0 <= i < |results| && results[i].Fulfilled? && results[i].recipientType == 2 {
          var i :| 0 <= i < |results| && results[i].Fulfilled? && results[i].recipientType == 2;
          assert i > 0;
          assert results[1..][i - 1] == results[i];
        }
      }
      rest
  }

  /** How a draft save is sent. */
  datatype DraftRequest = UpdateDraft | CreateDraft

  /** A draft whose body was downloaded and which has a real server id is
      updated; any other draft is created anew. */
  function DraftRequestFor(isDetailDownloaded: bool, messageID: string): (r: DraftRequest)
    ensures r == UpdateDraft <==> isDetailDownloaded && messageID != "0"
  {
    if isDetailDownloaded && messageID != "0" then UpdateDraft else CreateDraft
  }
}
