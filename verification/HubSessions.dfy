/** Hub-minted sessions: one per (person, member), with a durable turn counter (`HubSessionStore`). */
module HubSessions {
  import opened Wrappers
  import Text

  datatype Session = Session(sessionId: string, turnIdx: nat)

  type SessionMap = map<string, Session>

  datatype SessionFile = Absent | Unusable | Saved(sessions: SessionMap)

  datatype Sessions = Sessions(entries: SessionMap, file: SessionFile)

  datatype SessionError = FlushFailed

  function Key(person: string, member: string): string {
    person + "::" + member
  }

  /** The registry refuses a member id with a colon in it. */
  predicate PlainId(member: string) {
    ':' !in member
  }

  /** So the key never confuses two relationships, whatever the person is called. */
  lemma KeyInjective(p1: string, m1: string, p2: string, m2: string)
    requires PlainId(m1) && PlainId(m2)
    ensures Key(p1, m1) == Key(p2, m2) ==> p1 == p2 && m1 == m2
  {
    if Key(p1, m1) == Key(p2, m2) {
      var k := Key(p1, m1);
      Text.SuffixAfterColon(p1 + ":", m1, p2 + ":", m2);
      assert k == (p1 + ":") + ":" + m1 == (p2 + ":") + ":" + m2;
      assert (p1 + ":")[..|p1|] == (p2 + ":")[..|p2|];
    }
  }

  /** Without that rule two relationships could share a session. */
  lemma ColonBreaksKey()
    ensures Key("ada", "b::c") == Key("ada::b", "c")
  {
    assert Key("ada", "b::c") == "ada::b::c";
  }

  // ----- operations -----------------------------------------------------------

  function Loaded(file: SessionFile): Sessions {
    Sessions(if file.Saved? then file.sessions else map[], file)
  }

  function Flushed(s: Sessions, ok: bool): Sessions {
    if ok then s.(file := Saved(s.entries)) else s
  }

  /** First contact mints and persists; a flush that fails raises, but the entry stays in memory. */
  function Minted(s: Sessions, person: string, member: string, freshId: string, flushOk: bool): Sessions {
    if Key(person, member) in s.entries then s
    else Flushed(s.(entries := s.entries[Key(person, member) := Session(freshId, 0)]), flushOk)
  }

  function Recorded(s: Sessions, person: string, member: string, turnIdx: nat, flushOk: bool): Sessions {
    var key := Key(person, member);
    if key in s.entries then Flushed(s.(entries := s.entries[key := s.entries[key].(turnIdx := turnIdx)]), flushOk)
    else s
  }

  class HubSessionStore {
    var sessions: SessionMap
    var file: SessionFile

    ghost function Model(): Sessions
      reads this
    {
      Sessions(sessions, file)
    }

    constructor (sessionFile: SessionFile)
      ensures Model() == Loaded(sessionFile)
    {
      file := sessionFile;
      sessions := if sessionFile.Saved? then sessionFile.sessions else map[];
    }

    method Flush(ok: bool)
      modifies this`file
      ensures Model() == Flushed(old(Model()), ok)
    {
      if ok {
        file := Saved(sessions);
      }
    }

    method GetOrMint(person: string, member: string, freshId: string, flushOk: bool)
      returns (r: Result<Session, SessionError>)
      modifies this
      ensures Model() == Minted(old(Model()), person, member, freshId, flushOk)
      ensures var key := Key(person, member);
              key in sessions && r == if key in old(sessions) || flushOk then Ok(sessions[key]) else Err(FlushFailed)
      ensures var key := person + "::" + member;
              sessions == if key in old(sessions) then old(sessions) else old(sessions)[key := Session(freshId, 0)]
    {
      var key := Key(person, member);
      if key !in sessions {
        sessions := sessions[key := Session(freshId, 0)];
        Flush(flushOk);
        if !flushOk {
          return Err(FlushFailed);
        }
      }
      r := Ok(sessions[key]);
    }

    method RecordTurn(person: string, member: string, turnIdx: nat, flushOk: bool)
      modifies this
      ensures Model() == Recorded(old(Model()), person, member, turnIdx, flushOk)
      ensures var key := person + "::" + member;
              if key !in old(sessions) then Model() == old(Model())
              else && sessions == old(sessions)[key := Session(old(sessions)[key].sessionId, turnIdx)]
                   && file == if flushOk then Saved(sessions) else old(file)
    {
      var key := Key(person, member);
      if key !in sessions {
        return;
      }
      sessions := sessions[key := sessions[key].(turnIdx := turnIdx)];
      Flush(flushOk);
    }
  }
}
