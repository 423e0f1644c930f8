/** The Discord side the bot talks to, reduced to what its logic depends on:
    text channels holding messages in posting order, each message with an id,
    a flag saying whether a bot account wrote it, and what it shows. Channel lookup
    (`getChannelOf`), message lookup (`getMessage`), posting, editing and
    deleting become operations on this store; posting draws a fresh id. */
module Messages {
  import opened Common

  /** What a message shows: a state summary embed, a task card (its embed
      fields and its rows of button component ids), or anything else. */
  datatype Body =
    | Summary(title: string, text: string)
    | Card(title: string, description: string, status: string, idField: string,
           assignees: string, rows: seq<seq<string>>)
    | Plain(text: string)

  /** `fromBot` is `author?.isBot == true`: the author is a bot account,
      this bot or any other. The messages this bot posts carry it. */
  datatype Message = Message(id: Snowflake, fromBot: bool, body: Body)

  function MessageId(m: Message): Snowflake { m.id }

  type Channels = map<Snowflake, seq<Message>>

  /** The position of the first message with the id. */
  function MessageIndex(msgs: seq<Message>, id: Snowflake): (r: Option<nat>)
    ensures r.None? <==> forall j :: 0 <= j < |msgs| ==> msgs[j].id != id
    ensures r.Some? ==> r.value < |msgs| && msgs[r.value].id == id
                        && forall j :: 0 <= j < r.value ==> msgs[j].id != id
  {
    if msgs == [] then None
    else if msgs[0].id == id then Some(0)
    else
      var r := MessageIndex(msgs[1..], id);
      if r.Some? then Some(r.value + 1) else None
  }

  /** `channel.getMessage(id)`: fails (None) when the channel does not exist
      or holds no message with that id. */
  function FindMessage(chs: Channels, c: Snowflake, id: Snowflake): (r: Option<Message>)
    ensures r.None? <==> c !in chs || forall m :: m in chs[c] ==> m.id != id
    ensures r.Some? ==> c in chs && r.value in chs[c] && r.value.id == id
  {
    if c !in chs then None
    else
      var i := MessageIndex(chs[c], id);
      if i.Some? then Some(chs[c][i.value]) else None
  }

  /** The channels after `message.delete()` of a message found by id; a
      message that cannot be found leaves everything as it is. */
  function Deleted(chs: Channels, c: Snowflake, id: Snowflake): (r: Channels)
    ensures r.Keys == chs.Keys
    ensures forall d :: d in chs && d != c ==> r[d] == chs[d]
  {
    if FindMessage(chs, c, id).Some? then chs[c := WithoutKey(chs[c], MessageId, id)] else chs
  }

  /** The channels after `channel.createMessage`. */
  function Posted(chs: Channels, c: Snowflake, m: Message): (r: Channels)
    requires c in chs
  {
    chs[c := chs[c] + [m]]
  }

  /** The channels after `message.edit`, which replaces what the first
      message with the id shows. */
  function Edited(chs: Channels, c: Snowflake, id: Snowflake, body: Body): (r: Channels)
  {
    if c in chs && MessageIndex(chs[c], id).Some?
    then
      var i := MessageIndex(chs[c], id).value;
      chs[c := chs[c][i := chs[c][i].(body := body)]]
    else chs
  }

  /** `getMessagesBefore(Snowflake.max, n)`: the `n` most recent messages of
      a channel (all of them when it holds fewer). */
  function Latest(msgs: seq<Message>, n: nat): (r: seq<Message>)
    ensures |r| == if |msgs| < n then |msgs| else n
    ensures r == msgs[|msgs| - |r|..]
    ensures forall m :: m in r ==> m in msgs
    ensures |msgs| <= n ==> r == msgs
  {
    if |msgs| <= n then msgs else msgs[|msgs| - n..]
  }

  /** After a delete the message is gone from its channel and every other
      message of every channel is still there. */
  lemma DeletedEffect(chs: Channels, c: Snowflake, id: Snowflake)
    ensures FindMessage(Deleted(chs, c, id), c, id).None?
    ensures forall d, m :: d in chs && m in chs[d] && (d != c || m.id != id) ==> m in Deleted(chs, c, id)[d]
  {
  }

  /** Deleting from an existing channel is removal by id, whether or not
      the message is there. */
  lemma DeletedIsRemoval(chs: Channels, c: Snowflake, id: Snowflake)
    requires c in chs
    ensures Deleted(chs, c, id) == chs[c := WithoutKey(chs[c], MessageId, id)]
  {
    if FindMessage(chs, c, id).None? {
      WithoutAbsentKey(chs[c], MessageId, id);
    }
  }

  /** A message posted with an id the channel does not hold is found there
      afterwards, after every message the channel held before. */
  lemma PostedEffect(chs: Channels, c: Snowflake, m: Message)
    requires c in chs
    requires forall x :: x in chs[c] ==> x.id != m.id
    ensures FindMessage(Posted(chs, c, m), c, m.id) == Some(m)
    ensures Posted(chs, c, m)[c][..|chs[c]|] == chs[c]
  {
    assert MessageIndex(chs[c] + [m], m.id) == Some(|chs[c]|) by {
      var s := chs[c] + [m];
      assert s[|chs[c]|] == m;
      assert forall j :: 0 <= j < |chs[c]| ==> s[j] == chs[c][j] && chs[c][j] in chs[c];
    }
  }

  /** An edit of an existing message changes what it shows and nothing
      else: every channel keeps its length and the ids of its messages. */
  lemma EditedEffect(chs: Channels, c: Snowflake, id: Snowflake, body: Body)
    ensures Edited(chs, c, id, body).Keys == chs.Keys
    ensures forall d :: d in chs ==> |Edited(chs, c, id, body)[d]| == |chs[d]|
    ensures forall d, j :: d in chs && 0 <= j < |chs[d]| ==>
              Edited(chs, c, id, body)[d][j].id == chs[d][j].id
              && Edited(chs, c, id, body)[d][j].fromBot == chs[d][j].fromBot
    ensures FindMessage(chs, c, id).Some? ==>
              FindMessage(Edited(chs, c, id, body), c, id) == Some(FindMessage(chs, c, id).value.(body := body))
  {
  }

  /** An edit adds no id: a message absent from a channel stays absent. */
  lemma EditedKeepsAbsent(chs: Channels, c: Snowflake, id: Snowflake, body: Body, d: Snowflake, absent: Snowflake)
    requires FindMessage(chs, d, absent).None?
    ensures FindMessage(Edited(chs, c, id, body), d, absent).None?
  {
    var r := Edited(chs, c, id, body);
    EditedEffect(chs, c, id, body);
    if d in r {
      forall m: Message | m in r[d]
        ensures m.id != absent
      {
        var j :| 0 <= j < |r[d]| && r[d][j] == m;
        assert chs[d][j] in chs[d];
      }
    }
  }

  /** A post adds only the posted message's id. */
  lemma PostedKeepsAbsent(chs: Channels, c: Snowflake, m: Message, d: Snowflake, absent: Snowflake)
    requires c in chs && FindMessage(chs, d, absent).None? && m.id != absent
    ensures FindMessage(Posted(chs, c, m), d, absent).None?
  {
    var r := Posted(chs, c, m);
    if d == c {
      forall x: Message | x in r[d]
        ensures x.id != absent
      {
        assert x in chs[d] || x == m;
      }
    }
  }

  /** The message store. `nextId` is above every id handed out so far, so a
      posted message never reuses an id. */
  class MessageStore {
    var channels: Channels
    var nextId: Snowflake

    ghost predicate Valid()
      reads this
    {
      forall c, m :: c in channels && m in channels[c] ==> m.id < nextId
    }

    constructor (channels: Channels, nextId: Snowflake)
      requires forall c, m :: c in channels && m in channels[c] ==> m.id < nextId
      ensures Valid()
      ensures this.channels == channels && this.nextId == nextId
    {
      this.channels := channels;
      this.nextId := nextId;
    }

    /** `channel.createMessage` by the bot: the message gets a fresh id and
        goes after everything already in the channel. */
    method CreateMessage(c: Snowflake, body: Body) returns (id: Snowflake)
      requires Valid() && c in channels
      modifies this
      ensures Valid()
      ensures id == old(nextId) && nextId == old(nextId) + 1
      ensures forall d, m :: d in old(channels) && m in old(channels)[d] ==> m.id != id
      ensures channels == Posted(old(channels), c, Message(id, true, body))
    {
      id := nextId;
      channels := channels[c := channels[c] + [Message(id, true, body)]];
      nextId := nextId + 1;
    }

    /** `getMessage(id).delete()`: reports whether the message was there. */
    method DeleteMessage(c: Snowflake, id: Snowflake) returns (ok: bool)
      requires Valid()
      modifies this
      ensures Valid()
      ensures nextId == old(nextId)
      ensures ok == FindMessage(old(channels), c, id).Some?
      ensures channels == Deleted(old(channels), c, id)
    {
      ok := FindMessage(channels, c, id).Some?;
      if ok {
        channels := channels[c := WithoutKey(channels[c], MessageId, id)];
      }
    }

    /** `getMessage(id).edit { … }`: reports whether the message was there. */
    method EditMessage(c: Snowflake, id: Snowflake, body: Body) returns (ok: bool)
      requires Valid()
      modifies this
      ensures Valid()
      ensures nextId == old(nextId)
      ensures ok == FindMessage(old(channels), c, id).Some?
      ensures channels == Edited(old(channels), c, id, body)
    {
      ok := FindMessage(channels, c, id).Some?;
      if ok {
        var i := MessageIndex(channels[c], id).value;
        channels := channels[c := channels[c][i := channels[c][i].(body := body)]];
      }
    }
  }
}
