/** The mailbox's system locations and their label ids. The ids are the mail
    API's location numbers, which `Message.Location` carries as raw values;
    user-created labels and folders have non-numeric ids. */
module Locations {

  datatype Location = Inbox | Draft | Sent | Trash | Spam | AllMail | Archive | Starred {
    /** The label id of the location (`Message.Location.rawValue`). */
    function RawValue(): string {
      match this
      case Inbox => "0"
      case Draft => "1"
      case Sent => "2"
      case Trash => "3"
      case Spam => "4"
      case AllMail => "5"
      case Archive => "6"
      case Starred => "10"
    }
  }

  const InboxID: string := Inbox.RawValue()
  const DraftID: string := Draft.RawValue()
  const SentID: string := Sent.RawValue()
  const TrashID: string := Trash.RawValue()
  const SpamID: string := Spam.RawValue()
  const AllMailID: string := AllMail.RawValue()
  const StarredID: string := Starred.RawValue()

  predicate IsDigit(c: char) {
    '0' <= c <= '9'
  }

  /** A "normal" label, as `getNormalLableIDs()` selects them: a non-empty
      id that is not made of digits only, that is, not a system location. */
  predicate IsNormalLabel(id: string) {
    |id| > 0 && exists i :: 0 <= i < |id| && !IsDigit(id[i])
  }

  /** No system location is a normal label, so stripping the normal labels
      never strips a location. */
  lemma LocationsAreNotNormal(l: Location)
    ensures !IsNormalLabel(l.RawValue())
  {
    var id := l.RawValue();
    forall i | 0 <= i < |id| ensures IsDigit(id[i]) {
    }
  }
}
