/** The team chat panel: the relative time shown beside each message and the
    guarded append of a new message to the list. */
module CollaborationChat {
  import opened Wrappers
  import opened Text

  const DefaultName := "You"
  const DefaultColor := "#34a853"

  datatype Message = Message(id: int, user: string, text: string, timestamp: int, color: string)

  /** The `currentUser` prop; an absent or empty field is falsy. */
  datatype User = User(name: Option<string>, color: Option<string>)

  /** `formatTime`: whole hours, else whole minutes, else `"Just now"`. */
  function FormatTime(now: int, timestamp: int): string {
    var diff := now - timestamp;
    var minutes := diff / MsPerMinute;
    var hours := diff / MsPerHour;
    if hours > 0 then IntToString(hours) + "h ago"
    else if minutes > 0 then IntToString(minutes) + "m ago"
    else "Just now"
  }

  /** The label by elapsed time: from an hour on the whole hours, from a minute
      on the whole minutes (1 to 59), and `"Just now"` exactly below a minute,
      a timestamp in the future included. */
  lemma FormatTimeThresholds(now: int, timestamp: int)
    ensures var diff := now - timestamp;
      && (diff >= MsPerHour ==> FormatTime(now, timestamp) == NatToString(diff / MsPerHour) + "h ago")
      && (MsPerMinute <= diff < MsPerHour ==>
            1 <= diff / MsPerMinute < 60 && FormatTime(now, timestamp) == NatToString(diff / MsPerMinute) + "m ago")
      && (FormatTime(now, timestamp) == "Just now" <==> diff < MsPerMinute)
  {
    var diff := now - timestamp;
    if diff >= MsPerMinute {
      var digits := if diff >= MsPerHour then NatToString(diff / MsPerHour) else NatToString(diff / MsPerMinute);
      assert FormatTime(now, timestamp)[0] == digits[0] && IsDigit(digits[0]);
    }
  }

  /** `currentUser?.name || 'You'`. */
  function SenderName(currentUser: Option<User>): (name: string)
    ensures name != ""
    ensures currentUser.Some? && currentUser.value.name.Some? && currentUser.value.name.value != "" ==>
      name == currentUser.value.name.value
    ensures currentUser.None? || currentUser.value.name.None? || currentUser.value.name.value == "" ==>
      name == DefaultName
  {
    match currentUser
    case Some(User(Some(name), _)) => if name != "" then name else DefaultName
    case _ => DefaultName
  }

  /** `currentUser?.color || '#34a853'`. */
  function SenderColor(currentUser: Option<User>): (color: string)
    ensures color != ""
    ensures currentUser.Some? && currentUser.value.color.Some? && currentUser.value.color.value != "" ==>
      color == currentUser.value.color.value
    ensures currentUser.None? || currentUser.value.color.None? || currentUser.value.color.value == "" ==>
      color == DefaultColor
  {
    match currentUser
    case Some(User(_, Some(color))) => if color != "" then color else DefaultColor
    case _ => DefaultColor
  }

  class Chat {
    /** The `messages` state, oldest first. */
    var messages: seq<Message>
    /** The `newMessage` state: the text in the input box. */
    var newMessage: string

    /** The panel as it mounts at time `now`: two seeded messages, an empty input. */
    constructor (now: int)
      ensures messages == [
        Message(1, "John Doe", "Hey team, let's review this section", now - 300000, "#4285f4"),
        Message(2, "Jane Smith", "Looks good to me!", now - 120000, "#ea4335")]
      ensures newMessage == ""
    {
      messages := [
        Message(1, "John Doe", "Hey team, let's review this section", now - 300000, "#4285f4"),
        Message(2, "Jane Smith", "Looks good to me!", now - 120000, "#ea4335")];
      newMessage := "";
    }

    /** The input's `onChange`. */
    method SetNewMessage(value: string)
      modifies this
      ensures newMessage == value && messages == old(messages)
    {
      newMessage := value;
    }

    /** `handleSendMessage` at time `now` (the id and the timestamp both come from the clock). */
    method SendMessage(currentUser: Option<User>, now: int)
      modifies this
      ensures IsBlank(old(newMessage)) ==> messages == old(messages) && newMessage == old(newMessage)
      ensures !IsBlank(old(newMessage)) ==>
        && messages == old(messages) + [Message(now, SenderName(currentUser), old(newMessage), now, SenderColor(currentUser))]
        && newMessage == ""
      ensures |messages| == |old(messages)| + (if IsBlank(old(newMessage)) then 0 else 1)
      ensures messages[..|old(messages)|] == old(messages)
    {
      if !IsBlank(newMessage) {
        var message := Message(now, SenderName(currentUser), newMessage, now, SenderColor(currentUser));
        messages := messages + [message];
        newMessage := "";
      }
    }
  }
}
