/** Stored conversations (pkg/session/manager.go). */
module Sessions {
  import opened History

  datatype Conversation = Conversation(messages: seq<Message>, summary: string)

  class Session {
    var messages: seq<Message>
    var summary: string

    constructor ()
      ensures Value() == Conversation([], "")
    {
      messages, summary := [], "";
    }

    function Value(): Conversation
      reads this
    {
      Conversation(messages, summary)
    }
  }

  type Store = map<string, Conversation>

  function Get(s: Store, key: string): Conversation {
    if key in s then s[key] else Conversation([], "")
  }

  /** The newest `keepLast` messages. */
  function Truncated(h: seq<Message>, keepLast: int): (r: seq<Message>)
    ensures |r| == if keepLast <= 0 then 0 else if |h| <= keepLast then |h| else keepLast
    ensures forall i :: 0 <= i < |r| ==> r[i] == h[|h| - |r| + i]
  {
    if keepLast <= 0 then [] else if |h| <= keepLast then h else h[|h| - keepLast..]
  }

  class SessionManager {
    var sessions: map<string, Session>

    constructor ()
      ensures Valid() && Contents() == map[]
    {
      sessions := map[];
    }

    /** No two keys share a session. */
    ghost predicate Valid()
      reads this
    {
      forall p, q :: p in sessions && q in sessions && p != q ==> sessions[p] != sessions[q]
    }

    ghost function Contents(): Store
      reads this, sessions.Values
    {
      map k | k in sessions :: sessions[k].Value()
    }

    method AddFullMessage(key: string, msg: Message)
      requires Valid()
      modifies this, sessions.Values
      ensures Valid() && fresh(sessions.Values - old(sessions.Values))
      ensures key in Contents()
      ensures Contents() == old(Contents())[key := AddedTo(Get(old(Contents()), key), msg)]
      ensures key in old(Contents()) ==>
                Contents()[key] == Conversation(old(Contents())[key].messages + [msg], old(Contents())[key].summary)
      ensures key !in old(Contents()) ==> Contents()[key] == Conversation([msg], "")
    {
      if key !in sessions {
        var session := new Session();
        sessions := sessions[key := session];
      }
      sessions[key].messages := sessions[key].messages + [msg];
    }

    method GetHistory(key: string) returns (history: seq<Message>)
      requires Valid()
      ensures history == Get(Contents(), key).messages
      ensures key in Contents() ==> history == Contents()[key].messages
      ensures key !in Contents() ==> history == []
    {
      if key !in sessions {
        return [];
      }
      return sessions[key].messages;
    }

    method SetSummary(key: string, summary: string)
      requires Valid()
      modifies sessions.Values
      ensures Valid()
      ensures Contents() ==
                if key in old(Contents()) then old(Contents())[key := old(Contents())[key].(summary := summary)]
                            else old(Contents())
    {
      if key in sessions {
        sessions[key].summary := summary;
      }
    }

    method TruncateHistory(key: string, keepLast: int)
      requires Valid()
      modifies sessions.Values
      ensures Valid()
      ensures Contents() == Replaced(old(Contents()), key, Truncated(Get(old(Contents()), key).messages, keepLast))
      ensures key !in old(Contents()) ==> Contents() == old(Contents())
      ensures key in old(Contents()) ==>
                Contents() == old(Contents())[key := Conversation(Truncated(old(Contents())[key].messages, keepLast),
                                                                  old(Contents())[key].summary)]
    {
      if key !in sessions {
        return;
      }
      var session := sessions[key];
      if keepLast <= 0 {
        session.messages := [];
        return;
      }
      if |session.messages| <= keepLast {
        return;
      }
      session.messages := session.messages[|session.messages| - keepLast..];
    }

    method SetHistory(key: string, history: seq<Message>)
      requires Valid()
      modifies sessions.Values
      ensures Valid()
      ensures Contents() == Replaced(old(Contents()), key, history)
      ensures key !in old(Contents()) ==> Contents() == old(Contents())
      ensures key in old(Contents()) ==>
                Contents() == old(Contents())[key := Conversation(history, old(Contents())[key].summary)]
    {
      if key in sessions {
        sessions[key].messages := history;
      }
    }
  }

  function AddedTo(c: Conversation, msg: Message): Conversation {
    c.(messages := c.messages + [msg])
  }

  /** New messages for a key that has a session; other keys are left alone. */
  function Replaced(s: Store, key: string, messages: seq<Message>): Store {
    if key in s then s[key := s[key].(messages := messages)] else s
  }
}
