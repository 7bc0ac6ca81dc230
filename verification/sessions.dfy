/** The in-memory chat-session store (`SessionManager` in backend/sessions.py):
    sessions by id, each repo's session ids in creation order, and a per-repo
    counter for default names. Every operation is a function from the old
    store to the new one and the value the method returns; the ids that
    `uuid4` would draw are parameters, and timestamps and change callbacks
    are not modelled. */
module Sessions {
  import opened Wrappers
  import opened Text

  /** `SessionStatus`. */
  datatype SessionStatus = Active | Idle | Archived

  /** A tool-call record of a message, a dictionary kept as it was given. */
  type ToolCall = map<string, string>

  /** `ChatMessage`, without its timestamp. */
  datatype ChatMessage = ChatMessage(
    id: string,
    role: string,
    content: string,
    agentId: Option<string>,
    toolCalls: seq<ToolCall>)

  /** `ChatSession`, without its timestamps. */
  datatype ChatSession = ChatSession(
    id: string,
    repoId: string,
    name: string,
    status: SessionStatus,
    messages: seq<ChatMessage>,
    agentId: Option<string>)

  /** The manager's three dictionaries. */
  datatype Manager = Manager(
    sessions: map<string, ChatSession>,
    repoSessions: map<string, seq<string>>,
    counter: map<string, nat>)

  /** `SessionManager()` */
  function Empty(): Manager {
    Manager(map[], map[], map[])
  }

  /** Python truthiness of an optional string: present and non-empty. */
  predicate Truthy(s: Option<string>) {
    s.Some? && s.value != ""
  }

  predicate Distinct(ids: seq<string>) {
    forall i, j :: 0 <= i < j < |ids| ==> ids[i] != ids[j]
  }

  /** The store is consistent: each session sits under its own id and in its
      repo's list, each repo list is duplicate-free and lists only live
      sessions of that repo. */
  ghost predicate Valid(m: Manager) {
    && (forall sid :: sid in m.sessions ==>
          && m.sessions[sid].id == sid
          && m.sessions[sid].repoId in m.repoSessions
          && sid in m.repoSessions[m.sessions[sid].repoId])
    && (forall repo :: repo in m.repoSessions ==> Distinct(m.repoSessions[repo]))
    && (forall repo, i :: repo in m.repoSessions && 0 <= i < |m.repoSessions[repo]| ==>
          && m.repoSessions[repo][i] in m.sessions
          && m.sessions[m.repoSessions[repo][i]].repoId == repo)
  }

  lemma EmptyValid()
    ensures Valid(Empty())
  {
  }

  // ----- reading -----

  /** `count` */
  function Count(m: Manager): nat {
    |m.sessions|
  }

  /** The ids of the sessions that are ACTIVE. */
  function ActiveIds(m: Manager): set<string> {
    set sid | sid in m.sessions && m.sessions[sid].status == Active
  }

  /** `active_count` */
  function ActiveCount(m: Manager): (n: nat)
    ensures n <= Count(m)
  {
    assert ActiveIds(m) <= m.sessions.Keys;
    SubsetCard(ActiveIds(m), m.sessions.Keys);
    |ActiveIds(m)|
  }

  lemma {:induction false} SubsetCard<T>(a: set<T>, b: set<T>)
    requires a <= b
    ensures |a| <= |b|
    decreases |a|
  {
    if a != {} {
      var x :| x in a;
      SubsetCard(a - {x}, b - {x});
    }
  }

  /** `get_session(session_id)` */
  function Get(m: Manager, sid: string): (r: Option<ChatSession>)
    ensures r.Some? <==> sid in m.sessions
    ensures r.Some? ==> r.value == m.sessions[sid]
  {
    if sid in m.sessions then Some(m.sessions[sid]) else None
  }

  /** The sessions of the listed ids that are still stored, in list order. */
  function Live(sessions: map<string, ChatSession>, ids: seq<string>): (r: seq<ChatSession>)
    ensures |r| <= |ids|
    decreases |ids|
  {
    if |ids| == 0 then []
    else
      (if ids[0] in sessions then [sessions[ids[0]]] else []) + Live(sessions, ids[1..])
  }

  /** The repo's id list, empty when the repo has none. */
  function RepoIds(m: Manager, repo: string): seq<string> {
    if repo in m.repoSessions then m.repoSessions[repo] else []
  }

  /** `get_repo_sessions(repo_id)` */
  function RepoSessions(m: Manager, repo: string): (r: seq<ChatSession>)
    ensures |r| <= |RepoIds(m, repo)|
  {
    Live(m.sessions, RepoIds(m, repo))
  }

  /** Every listed id is stored: nothing is skipped, and the sessions come
      back in list order. */
  lemma {:induction false} LiveAll(sessions: map<string, ChatSession>, ids: seq<string>)
    requires forall i :: 0 <= i < |ids| ==> ids[i] in sessions
    ensures |Live(sessions, ids)| == |ids|
    ensures forall i :: 0 <= i < |ids| ==> Live(sessions, ids)[i] == sessions[ids[i]]
    decreases |ids|
  {
    if |ids| > 0 {
      LiveAll(sessions, ids[1..]);
    }
  }

  /** `Live` of a list with one more id at the end. */
  lemma {:induction false} LiveSnoc(sessions: map<string, ChatSession>, ids: seq<string>, sid: string)
    requires sid in sessions
    ensures Live(sessions, ids + [sid]) == Live(sessions, ids) + [sessions[sid]]
    decreases |ids|
  {
    if |ids| == 0 {
      assert ids + [sid] == [sid];
    } else {
      var t := ids + [sid];
      var head := if ids[0] in sessions then [sessions[ids[0]]] else [];
      assert t[0] == ids[0] && t[1..] == ids[1..] + [sid];
      LiveSnoc(sessions, ids[1..], sid);
      assert Live(sessions, t) == head + (Live(sessions, ids[1..]) + [sessions[sid]]);
      assert Live(sessions, ids) == head + Live(sessions, ids[1..]);
    }
  }

  /** `Live` only looks at the listed ids. */
  lemma {:induction false} LiveOnListed(s1: map<string, ChatSession>, s2: map<string, ChatSession>, ids: seq<string>)
    requires forall i :: 0 <= i < |ids| ==> (ids[i] in s1 <==> ids[i] in s2)
    requires forall i :: 0 <= i < |ids| && ids[i] in s1 ==> s1[ids[i]] == s2[ids[i]]
    ensures Live(s1, ids) == Live(s2, ids)
    decreases |ids|
  {
    if |ids| > 0 {
      LiveOnListed(s1, s2, ids[1..]);
    }
  }

  /** In a consistent store a repo's sessions are exactly its stored sessions,
      one per listed id, in list order. */
  lemma RepoSessionsOfValid(m: Manager, repo: string)
    requires Valid(m)
    ensures |RepoSessions(m, repo)| == |RepoIds(m, repo)|
    ensures forall i :: 0 <= i < |RepoIds(m, repo)| ==> RepoSessions(m, repo)[i] == m.sessions[RepoIds(m, repo)[i]]
    ensures forall s :: s in RepoSessions(m, repo) <==> s in m.sessions.Values && s.repoId == repo
  {
    var ids := RepoIds(m, repo);
    LiveAll(m.sessions, ids);
    forall s | s in m.sessions.Values && s.repoId == repo
      ensures s in RepoSessions(m, repo)
    {
      var sid :| sid in m.sessions && m.sessions[sid] == s;
      var i :| 0 <= i < |ids| && ids[i] == sid;
      assert RepoSessions(m, repo)[i] == s;
    }
  }

  // ----- creating -----

  /** The new store and the session `create_session` returns. */
  datatype Created = Created(manager: Manager, session: ChatSession)

  /** `create_session(repo_id, name)`, `sid` being the id `uuid4` yields. */
  function Create(m: Manager, repo: string, name: Option<string>, sid: string): (r: Created)
    ensures r.session == ChatSession(sid, repo, r.session.name, Idle, [], None)
    ensures Truthy(name) ==> r.session.name == name.value && r.manager.counter == m.counter
    ensures !Truthy(name) ==>
      var n := (if repo in m.counter then m.counter[repo] else 0) + 1;
      && r.session.name == "Chat " + NatToString(n)
      && r.manager.counter == m.counter[repo := n]
    ensures r.manager.sessions == m.sessions[sid := r.session]
    ensures r.manager.repoSessions == m.repoSessions[repo := RepoIds(m, repo) + [sid]]
  {
    var chosen :=
      if Truthy(name) then name.value
      else "Chat " + NatToString((if repo in m.counter then m.counter[repo] else 0) + 1);
    var counter :=
      if Truthy(name) then m.counter
      else m.counter[repo := (if repo in m.counter then m.counter[repo] else 0) + 1];
    var session := ChatSession(sid, repo, chosen, Idle, [], None);
    Created(Manager(m.sessions[sid := session], m.repoSessions[repo := RepoIds(m, repo) + [sid]], counter), session)
  }

  /** A fresh id adds exactly one session, keeps the store consistent, and
      puts the session last among its repo's sessions. */
  lemma CreateFresh(m: Manager, repo: string, name: Option<string>, sid: string)
    requires Valid(m) && sid !in m.sessions
    ensures var r := Create(m, repo, name, sid);
      && Valid(r.manager)
      && Count(r.manager) == Count(m) + 1
      && RepoSessions(r.manager, repo) == RepoSessions(m, repo) + [r.session]
  {
    var r := Create(m, repo, name, sid);
    var ids := RepoIds(m, repo);
    CreateKeepsValid(m, repo, name, sid);
    assert forall i :: 0 <= i < |ids| ==> ids[i] != sid;
    LiveOnListed(m.sessions, r.manager.sessions, ids);
    LiveSnoc(r.manager.sessions, ids, sid);
  }

  /** Creating under a fresh id keeps the store consistent. */
  lemma CreateKeepsValid(m: Manager, repo: string, name: Option<string>, sid: string)
    requires Valid(m) && sid !in m.sessions
    ensures Valid(Create(m, repo, name, sid).manager)
  {
    var n := Create(m, repo, name, sid).manager;
    var ids := RepoIds(m, repo);
    assert sid !in ids;
    forall x | x in n.sessions
      ensures n.sessions[x].id == x && n.sessions[x].repoId in n.repoSessions
      ensures x in n.repoSessions[n.sessions[x].repoId]
    {
      if x != sid && m.sessions[x].repoId == repo {
        assert x in ids;
      }
    }
    forall other | other in n.repoSessions
      ensures Distinct(n.repoSessions[other])
    {
      if other == repo {
        var l := ids + [sid];
        forall i, j | 0 <= i < j < |l| ensures l[i] != l[j] {
          if j < |ids| {
            assert l[i] == ids[i] && l[j] == ids[j];
          }
        }
      }
    }
    forall other, i | other in n.repoSessions && 0 <= i < |n.repoSessions[other]|
      ensures n.repoSessions[other][i] in n.sessions
      ensures n.sessions[n.repoSessions[other][i]].repoId == other
    {
      if other == repo && i < |ids| {
        assert n.repoSessions[other][i] == ids[i];
      }
    }
  }

  /** A default name draws the next number of the repo's counter, which only
      ever grows; deleting never gives a number back. */
  lemma DefaultNamesCount(m: Manager, repo: string, sid: string)
    ensures var n := (if repo in m.counter then m.counter[repo] else 0) + 1;
      && Create(m, repo, None, sid).session.name == "Chat " + NatToString(n)
      && Create(m, repo, None, sid).manager.counter[repo] == n
      && Delete(Create(m, repo, None, sid).manager, sid).manager.counter[repo] == n
  {
  }

  // ----- messages -----

  /** The new store and the message `add_message` returns, if any. */
  datatype Added = Added(manager: Manager, message: Option<ChatMessage>)

  /** `add_message(session_id, role, content, agent_id, tool_calls)`, `mid`
      being the id `uuid4` yields. */
  function AddMessage(m: Manager, sid: string, role: string, content: string, agentId: Option<string>,
                      toolCalls: Option<seq<ToolCall>>, mid: string): (r: Added)
    ensures sid !in m.sessions <==> r.message.None?
    ensures sid !in m.sessions ==> r.manager == m
    ensures sid in m.sessions ==>
      && r.message == Some(ChatMessage(mid, role, content, agentId, toolCalls.GetOr([])))
      && r.manager == m.(sessions := m.sessions[sid := m.sessions[sid].(messages := m.sessions[sid].messages + [r.message.value])])
  {
    if sid !in m.sessions then Added(m, None)
    else
      var message := ChatMessage(mid, role, content, agentId, toolCalls.GetOr([]));
      var s := m.sessions[sid];
      Added(m.(sessions := m.sessions[sid := s.(messages := s.messages + [message])]), Some(message))
  }

  /** The new store and whether the call succeeded. */
  datatype Changed = Changed(manager: Manager, ok: bool)

  /** `append_to_last_message(session_id, content)` */
  function AppendToLast(m: Manager, sid: string, content: string): (r: Changed)
    ensures r.ok <==> sid in m.sessions && |m.sessions[sid].messages| > 0
    ensures !r.ok ==> r.manager == m
  {
    if sid !in m.sessions || |m.sessions[sid].messages| == 0 then Changed(m, false)
    else
      var s := m.sessions[sid];
      var n := |s.messages|;
      var last := s.messages[n - 1];
      Changed(m.(sessions := m.sessions[sid := s.(messages := s.messages[n - 1 := last.(content := last.content + content)])]), true)
  }

  /** Appending touches only the last message's content, which grows by the
      appended text; every other message, session and list stays. */
  lemma AppendTouchesLastOnly(m: Manager, sid: string, content: string)
    requires sid in m.sessions && |m.sessions[sid].messages| > 0
    ensures var r := AppendToLast(m, sid, content).manager;
      var old_ := m.sessions[sid].messages;
      var new_ := r.sessions[sid].messages;
      && r.repoSessions == m.repoSessions && r.counter == m.counter
      && r.sessions.Keys == m.sessions.Keys
      && (forall other :: other in m.sessions && other != sid ==> r.sessions[other] == m.sessions[other])
      && r.sessions[sid] == m.sessions[sid].(messages := new_)
      && |new_| == |old_|
      && new_[..|old_| - 1] == old_[..|old_| - 1]
      && new_[|old_| - 1] == old_[|old_| - 1].(content := old_[|old_| - 1].content + content)
  {
  }

  /** Two appends add both texts, in order. */
  lemma AppendTwice(m: Manager, sid: string, a: string, b: string)
    requires sid in m.sessions && |m.sessions[sid].messages| > 0
    ensures AppendToLast(AppendToLast(m, sid, a).manager, sid, b).manager == AppendToLast(m, sid, a + b).manager
  {
    var s := m.sessions[sid];
    var n := |s.messages|;
    var last := s.messages[n - 1];
    var once := AppendToLast(m, sid, a).manager;
    assert once.sessions[sid].messages == s.messages[n - 1 := last.(content := last.content + a)];
    assert last.content + a + b == last.content + (a + b);
    assert once.sessions[sid].messages[n - 1 := last.(content := last.content + a + b)]
        == s.messages[n - 1 := last.(content := last.content + (a + b))];
  }

  // ----- the session's fields -----

  /** `set_agent(session_id, agent_id)` */
  function SetAgent(m: Manager, sid: string, agentId: Option<string>): (r: Changed)
    ensures r.ok <==> sid in m.sessions
    ensures r.manager.sessions.Keys == m.sessions.Keys
    ensures !r.ok ==> r.manager == m
    ensures r.ok ==>
      && r.manager.sessions[sid].agentId == agentId
      && (r.manager.sessions[sid].status == Active <==> Truthy(agentId))
      && (r.manager.sessions[sid].status == Idle <==> !Truthy(agentId))
  {
    if sid !in m.sessions then Changed(m, false)
    else
      var s := m.sessions[sid];
      var status := if Truthy(agentId) then Active else Idle;
      Changed(m.(sessions := m.sessions[sid := s.(agentId := agentId, status := status)]), true)
  }

  /** `set_status(session_id, status)` */
  function SetStatus(m: Manager, sid: string, status: SessionStatus): (r: Changed)
    ensures r.ok <==> sid in m.sessions
    ensures r.manager.sessions.Keys == m.sessions.Keys
    ensures !r.ok ==> r.manager == m
    ensures r.ok ==> r.manager.sessions[sid].status == status
  {
    if sid !in m.sessions then Changed(m, false)
    else Changed(m.(sessions := m.sessions[sid := m.sessions[sid].(status := status)]), true)
  }

  /** `archive_session(session_id)` */
  function Archive(m: Manager, sid: string): (r: Changed)
    ensures r.ok <==> sid in m.sessions
    ensures r.manager.sessions.Keys == m.sessions.Keys
    ensures !r.ok ==> r.manager == m
    ensures r.ok ==> r.manager.sessions[sid] == m.sessions[sid].(status := Archived)
    ensures forall k :: k in m.sessions && k != sid ==> r.manager.sessions[k] == m.sessions[k]
    ensures r.manager.repoSessions == m.repoSessions && r.manager.counter == m.counter
  {
    SetStatus(m, sid, Archived)
  }

  /** `rename_session(session_id, name)` */
  function Rename(m: Manager, sid: string, name: string): (r: Changed)
    ensures r.ok <==> sid in m.sessions
    ensures r.manager.sessions.Keys == m.sessions.Keys
    ensures !r.ok ==> r.manager == m
    ensures r.ok ==> r.manager.sessions[sid].name == name
  {
    if sid !in m.sessions then Changed(m, false)
    else Changed(m.(sessions := m.sessions[sid := m.sessions[sid].(name := name)]), true)
  }

  /** A store that differs from `m` at most in the fields of session `sid`
      other than its id and repo. */
  ghost predicate OnlySessionChanged(m: Manager, r: Manager, sid: string) {
    && r.repoSessions == m.repoSessions && r.counter == m.counter
    && r.sessions.Keys == m.sessions.Keys
    && (forall other :: other in m.sessions && other != sid ==> r.sessions[other] == m.sessions[other])
    && (sid in m.sessions ==> r.sessions[sid].id == m.sessions[sid].id && r.sessions[sid].repoId == m.sessions[sid].repoId)
  }

  /** Setting the agent touches that session alone and keeps the store consistent. */
  lemma SetAgentIsLocal(m: Manager, sid: string, agentId: Option<string>)
    requires Valid(m)
    ensures OnlySessionChanged(m, SetAgent(m, sid, agentId).manager, sid) && Valid(SetAgent(m, sid, agentId).manager)
  {
  }

  /** Setting the status touches that session alone and keeps the store consistent. */
  lemma SetStatusIsLocal(m: Manager, sid: string, status: SessionStatus)
    requires Valid(m)
    ensures OnlySessionChanged(m, SetStatus(m, sid, status).manager, sid) && Valid(SetStatus(m, sid, status).manager)
  {
  }

  /** Renaming touches that session alone and keeps the store consistent. */
  lemma RenameIsLocal(m: Manager, sid: string, name: string)
    requires Valid(m)
    ensures OnlySessionChanged(m, Rename(m, sid, name).manager, sid) && Valid(Rename(m, sid, name).manager)
  {
  }

  /** Appending text touches that session alone and keeps the store consistent. */
  lemma AppendIsLocal(m: Manager, sid: string, content: string)
    requires Valid(m)
    ensures OnlySessionChanged(m, AppendToLast(m, sid, content).manager, sid) && Valid(AppendToLast(m, sid, content).manager)
  {
  }

  /** Adding a message touches that session alone and keeps the store consistent. */
  lemma AddMessageIsLocal(m: Manager, sid: string, role: string, content: string, agentId: Option<string>,
                          toolCalls: Option<seq<ToolCall>>, mid: string)
    requires Valid(m)
    ensures var a := AddMessage(m, sid, role, content, agentId, toolCalls, mid).manager;
      OnlySessionChanged(m, a, sid) && Valid(a)
  {
  }

  /** Giving a session an agent makes it ACTIVE, so the active count grows by
      one unless it already was. */
  lemma SetAgentActiveCount(m: Manager, sid: string, agentId: Option<string>)
    requires sid in m.sessions && Truthy(agentId)
    ensures ActiveCount(SetAgent(m, sid, agentId).manager) ==
      ActiveCount(m) + (if m.sessions[sid].status == Active then 0 else 1)
  {
    var r := SetAgent(m, sid, agentId).manager;
    if m.sessions[sid].status == Active {
      assert ActiveIds(r) == ActiveIds(m);
    } else {
      assert ActiveIds(r) == ActiveIds(m) + {sid};
    }
  }

  // ----- deleting -----

  /** `[x for x in ids if x != sid]` */
  function Without(ids: seq<string>, sid: string): (r: seq<string>)
    ensures forall x :: x in r <==> x in ids && x != sid
    ensures |r| <= |ids|
    decreases |ids|
  {
    if |ids| == 0 then []
    else (if ids[0] != sid then [ids[0]] else []) + Without(ids[1..], sid)
  }

  /** `delete_session(session_id)` */
  function Delete(m: Manager, sid: string): (r: Changed)
    ensures r.ok <==> sid in m.sessions
    ensures !r.ok ==> r.manager == m
    ensures r.ok ==>
      && r.manager.sessions == m.sessions - {sid}
      && r.manager.counter == m.counter
      && r.manager.repoSessions.Keys == m.repoSessions.Keys
      && (forall repo :: repo in m.repoSessions && repo != m.sessions[sid].repoId ==>
            r.manager.repoSessions[repo] == m.repoSessions[repo])
      && (m.sessions[sid].repoId in m.repoSessions ==>
            r.manager.repoSessions[m.sessions[sid].repoId] == Without(m.repoSessions[m.sessions[sid].repoId], sid))
  {
    if sid !in m.sessions then Changed(m, false)
    else
      var repo := m.sessions[sid].repoId;
      var lists := if repo in m.repoSessions then m.repoSessions[repo := Without(m.repoSessions[repo], sid)] else m.repoSessions;
      Changed(Manager(m.sessions - {sid}, lists, m.counter), true)
  }

  /** `Without` keeps a duplicate-free list duplicate-free. */
  lemma {:induction false} WithoutDistinct(ids: seq<string>, sid: string)
    requires Distinct(ids)
    ensures Distinct(Without(ids, sid))
    decreases |ids|
  {
    if |ids| > 0 {
      assert Distinct(ids[1..]) by {
        forall i, j | 0 <= i < j < |ids[1..]| ensures ids[1..][i] != ids[1..][j] {
          assert ids[1..][i] == ids[i + 1] && ids[1..][j] == ids[j + 1];
        }
      }
      WithoutDistinct(ids[1..], sid);
      assert ids[0] !in ids[1..] by {
        forall k | 0 <= k < |ids[1..]| ensures ids[1..][k] != ids[0] {
          assert ids[1..][k] == ids[k + 1];
        }
      }
      var rest := Without(ids[1..], sid);
      var r := Without(ids, sid);
      if ids[0] != sid {
        forall i, j | 0 <= i < j < |r| ensures r[i] != r[j] {
          if i == 0 {
            assert r[j] == rest[j - 1];
            assert r[j] in ids[1..];
          } else {
            assert r[i] == rest[i - 1] && r[j] == rest[j - 1];
          }
        }
      }
    }
  }

  /** Deleting a stored session removes it alone, drops it from its repo's
      list, lowers the count by one and keeps the store consistent. */
  lemma DeleteKeepsOthers(m: Manager, sid: string)
    requires Valid(m) && sid in m.sessions
    ensures var r := Delete(m, sid).manager;
      && Valid(r)
      && Count(r) == Count(m) - 1
      && sid !in r.sessions
      && (forall other :: other in m.sessions && other != sid ==> other in r.sessions && r.sessions[other] == m.sessions[other])
  {
    var r := Delete(m, sid).manager;
    var repo := m.sessions[sid].repoId;
    WithoutDistinct(m.repoSessions[repo], sid);
    forall other | other in r.sessions
      ensures other in r.repoSessions[r.sessions[other].repoId]
    {
      assert r.sessions[other] == m.sessions[other];
    }
    forall rp, i | rp in r.repoSessions && 0 <= i < |r.repoSessions[rp]|
      ensures r.repoSessions[rp][i] in r.sessions && r.sessions[r.repoSessions[rp][i]].repoId == rp
    {
      var x := r.repoSessions[rp][i];
      assert x in r.repoSessions[rp];
      if rp == repo {
        assert x in m.repoSessions[rp] && x != sid;
      }
      var j :| 0 <= j < |m.repoSessions[rp]| && m.repoSessions[rp][j] == x;
    }
  }

  /** The listed ids that are among `keys`. */
  function Gone(ids: seq<string>, keys: set<string>): set<string> {
    set x | x in ids && x in keys
  }

  lemma GoneSnoc(ids: seq<string>, x: string, keys: set<string>)
    ensures Gone(ids + [x], keys) == Gone(ids, keys) + (if x in keys then {x} else {})
  {
  }

  /** `clear_repo_sessions(repo_id)`: deletes each listed id in turn and
      counts the deletions that succeeded. */
  method ClearRepo(m: Manager, repo: string) returns (r: Manager, count: nat)
    ensures forall sid :: sid in r.sessions <==> sid in m.sessions && sid !in RepoIds(m, repo)
    ensures forall sid :: sid in r.sessions ==> r.sessions[sid] == m.sessions[sid]
    ensures count == |Gone(RepoIds(m, repo), m.sessions.Keys)|
    ensures RepoSessions(r, repo) == []
    ensures r.counter == m.counter
  {
    var ids := RepoIds(m, repo);
    r, count := m, 0;
    var i := 0;
    while i < |ids|
      invariant 0 <= i <= |ids|
      invariant forall sid :: sid in r.sessions <==> sid in m.sessions && sid !in ids[..i]
      invariant forall sid :: sid in r.sessions ==> r.sessions[sid] == m.sessions[sid]
      invariant count == |Gone(ids[..i], m.sessions.Keys)|
      invariant r.repoSessions.Keys == m.repoSessions.Keys
      invariant forall x :: x in RepoIds(r, repo) ==> x in ids
      invariant r.counter == m.counter
    {
      var sid := ids[i];
      assert ids[..i + 1] == ids[..i] + [sid];
      GoneSnoc(ids[..i], sid, m.sessions.Keys);
      var d := Delete(r, sid);
      if d.ok {
        assert sid !in Gone(ids[..i], m.sessions.Keys);
        count := count + 1;
      } else {
        assert sid !in m.sessions || sid in ids[..i];
      }
      ListsShrink(r, sid, repo);
      r := d.manager;
      i := i + 1;
    }
    assert ids[..i] == ids;
    NoneLive(r.sessions, RepoIds(r, repo));
  }

  /** Deleting never adds an id to a repo's list. */
  lemma ListsShrink(m: Manager, sid: string, repo: string)
    ensures forall x :: x in RepoIds(Delete(m, sid).manager, repo) ==> x in RepoIds(m, repo)
  {
  }

  /** No listed id is stored: `Live` finds nothing. */
  lemma {:induction false} NoneLive(sessions: map<string, ChatSession>, ids: seq<string>)
    requires forall x :: x in ids ==> x !in sessions
    ensures Live(sessions, ids) == []
    decreases |ids|
  {
    if |ids| > 0 {
      NoneLive(sessions, ids[1..]);
    }
  }
}
