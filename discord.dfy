/**
 * The chat platform's message model, reduced to the fields this core sets,
 * and the HTTP client as the log of the requests issued through it.
 */
module Discord {
  import opened Wrappers
  import opened Models

  /** An embed as `simple_embed` builds it: a colour, a title, a description. */
  datatype Embed = Embed(color: nat, title: string, description: string)

  datatype ButtonStyle = Primary | Secondary | Success | Danger | Link

  /** Message components: a row of buttons (emoji and url are always absent here; `caption` is the label). */
  datatype Component =
    | ActionRow(components: seq<Component>)
    | Button(customId: Option<string>, disabled: bool, caption: Option<string>, style: ButtonStyle)

  datatype MentionType = Everyone | Roles | Users

  datatype AllowedMentions = AllowedMentions(
    repliedUser: bool,
    parse: seq<MentionType>,
    roles: seq<RoleId>,
    users: seq<UserId>)

  /** Mentions in a message with these allowances notify nobody. */
  const BLANK_ALLOWED_MENTIONS := AllowedMentions(false, [], [], [])

  /** How an edit treats a field: left as it is, cleared, or replaced. */
  datatype Edit<T> = Keep | Clear | Replace(value: T)

  datatype Request =
    | DeleteMessage(channel: ChannelId, message: MessageId, reason: string)
    | UpdateMessage(
        channel: ChannelId,
        message: MessageId,
        newContent: Edit<string>,
        allowedMentions: Option<AllowedMentions>,
        newEmbeds: Option<seq<Embed>>)
    | CreateMessage(
        channel: ChannelId,
        content: string,
        embeds: seq<Embed>,
        components: seq<Component>,
        allowedMentions: Option<AllowedMentions>)

  /** The HTTP client: every request sent through it, in order. */
  class Client {
    var requests: seq<Request>

    constructor ()
      ensures requests == []
    {
      requests := [];
    }

    method Send(request: Request)
      modifies this
      ensures requests == old(requests) + [request]
    {
      requests := requests + [request];
    }
  }
}
