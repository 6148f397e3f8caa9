/** The outcome types shared by the models of both programs. */
module Results {

  datatype Option<T> = None | Some(value: T)

  datatype Result<T, E> = Ok(value: T) | Err(error: E)
}

/** The guild member lookup the bots consult when rendering, seen from
    outside: `guild.get_member(uid)` answers with a member or `None`. */
module Guild {
  import opened Results
  import Text

  /** The three attributes of a `discord.Member` the bots print. */
  datatype Member = Member(mention: string, displayName: string, name: string)

  /** `guild.get_member`, supplied by the chat platform. */
  type Directory = int -> Option<Member>

  /** `f"<@{uid}>"`, the fallback mention for an id with no cached member. */
  function RawMention(uid: int): (r: string)
    ensures |r| >= 4 && r[..2] == "<@" && r[|r| - 1] == '>'
    ensures '\n' !in r
  {
    "<@" + Text.IntToDecimal(uid) + ">"
  }

  /** `m.mention if m else f"<@{uid}>"`. */
  function MentionOf(dir: Directory, uid: int): string
  {
    match dir(uid)
    case Some(m) => m.mention
    case None => RawMention(uid)
  }
}
