/** The decision part of the channel-membership gate. The status lookup
    itself is a call to the chat platform; the model receives its answer. */
module Membership {
  import opened Optional

  /** The placeholder channel name that `is_member` treats as no channel
      at all (wheel_bot.py:62). */
  const Placeholder: string := "@YourChannel"

  /** The chat-member statuses that count as being in the channel. */
  const MemberStatuses: set<string> := {"creator", "administrator", "member", "restricted"}

  /** What the platform answered when asked for the user's status in the
      channel: a status string, or a `BadRequest` error (for instance an
      unknown channel or a bot without access to it). */
  datatype Lookup = Status(status: string) | BadRequest

  /** No check is made: the channel setting is `null`, empty, or the
      placeholder. (The key itself must be present; the bot reads it with
      `config["channel_username"]`.) */
  predicate Unchecked(channel: Option<string>) {
    channel.None? || channel.value == "" || channel.value == Placeholder
  }

  /** `is_member`: an unchecked channel always passes; otherwise the user
      passes only with a status from `MemberStatuses`, and a `BadRequest`
      counts as not being a member. */
  function IsMember(channel: Option<string>, lookup: Lookup): (ok: bool)
    ensures Unchecked(channel) ==> ok
    ensures !Unchecked(channel) ==> (ok <==> lookup.Status? && lookup.status in MemberStatuses)
  {
    if Unchecked(channel) then true
    else
      match lookup
      case BadRequest => false
      case Status(st) => st in MemberStatuses
  }

  /** The gate depends on the platform's answer exactly when a real channel
      is configured: a user who left or was banned passes only an unchecked
      channel. */
  lemma GateNeedsMembership(channel: Option<string>)
    ensures IsMember(channel, Status("left")) <==> Unchecked(channel)
    ensures IsMember(channel, Status("kicked")) <==> Unchecked(channel)
    ensures IsMember(channel, BadRequest) <==> Unchecked(channel)
    ensures IsMember(channel, Status("member"))
  {
  }
}
