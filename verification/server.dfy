/**
 * `ServerGameLogic`: the authoritative game state and the handlers the connections
 * call, each one atomic step (the Java methods are `synchronized`). A step returns
 * the next state and the messages it sends, in order, each to one connection or to
 * every connected client.
 */
module Server {
  import opened Wrappers
  import opened Positions
  import opened CaveMaps
  import opened World
  import opened Snapshot
  import Codec

  /** The identity of a `ClientHandler` (one per connection). */
  type Handle = nat

  /** A role slot's handler, with the client id that handler currently carries. */
  datatype Binding = Binding(handle: Handle, clientId: string)

  datatype ServerState = ServerState(
    game: GameState,
    fishClient: Option<Binding>,
    crabClient: Option<Binding>,
    level: int,
    fishVote: Option<int>,
    crabVote: Option<int>,
    restartRequested: bool,
    restartRequester: Option<Handle>)

  /** The error codes the logic sends; the human-readable texts are not modelled. */
  datatype ErrorCode = Full | VoteDenied | BadVote | VoteFail | RestartDeclined | PlayerLeft

  /** What the logic sends. */
  datatype Notice =
    | RoleAssigned(clientId: string, role: Role)
    | LevelData(width: int, height: int, rows: seq<string>)
    | StateUpdate(payload: string)
    | Failure(code: ErrorCode)
    | RestartOffer(fromName: string)

  datatype Recipient = Everyone | Client(handle: Handle)

  datatype Outgoing = Outgoing(to: Recipient, notice: Notice)

  /** The result of one handler call. */
  datatype Step = Step(state: ServerState, out: seq<Outgoing>)

  /** The level table: at least one level, each one loadable. */
  predicate ValidTable(levels: seq<Level>) {
    |levels| > 0 && forall i | 0 <= i < |levels| :: ValidLevel(levels[i])
  }

  /** Handlers that index the level table need the current index inside it. */
  predicate Ready(levels: seq<Level>, s: ServerState) {
    ValidTable(levels) && 0 <= s.level < |levels|
  }

  /** The server as constructed: level 0 loaded, nobody bound, nothing pending. */
  function Init(levels: seq<Level>): (s: ServerState)
    requires ValidTable(levels)
    ensures Ready(levels, s) && s.level == 0 && s.game == LoadLevel(levels[0])
    ensures s.fishClient.None? && s.crabClient.None? && !s.restartRequested
  {
    ServerState(LoadLevel(levels[0]), None, None, 0, None, None, false, None)
  }

  // ------------------------------------------------------------------ helpers

  predicate BoundTo(slot: Option<Binding>, h: Handle) {
    slot.Some? && slot.value.handle == h
  }

  function SlotOf(s: ServerState, role: Role): Option<Binding> {
    if role == Fish then s.fishClient else s.crabClient
  }

  function Bind(s: ServerState, role: Role, b: Binding): ServerState {
    if role == Fish then s.(fishClient := Some(b)) else s.(crabClient := Some(b))
  }

  /** The STATE_UPDATE of the current world, to everyone. */
  function StateBroadcast(s: ServerState): Outgoing {
    Outgoing(Everyone, StateUpdate(Payload(s.game)))
  }

  /** The LEVEL_DATA of a level: the map's width and height, and the level's rows. */
  function LevelDataOf(rows: Level): Notice
    requires ValidLevel(rows)
  {
    LevelData(|rows[0]|, |rows|, rows)
  }

  /** `recreatePlayersAfterLevelChange`: a fresh player for each bound slot, named after
      its role and carrying the handler's current client id. */
  function Recreate(g: GameState, s: ServerState): (g': GameState)
    ensures g'.cave == g.cave && g'.objects == g.objects && g'.completed == g.completed
    ensures forall role: Role :: SlotOf(s, role).Some? ==>
              PlayerOf(g', role) == Some(Player(SlotOf(s, role).value.clientId, if role == Fish then "Fish" else "Crab",
                                                role, if role == Fish then Position(1, 1) else Position(2, 5)))
    ensures forall role: Role :: SlotOf(s, role).None? ==> PlayerOf(g', role) == PlayerOf(g, role)
  {
    var g1 := if s.fishClient.Some? then g.(fish := Some(Player(s.fishClient.value.clientId, "Fish", Fish, Position(1, 1)))) else g;
    if s.crabClient.Some? then g1.(crab := Some(Player(s.crabClient.value.clientId, "Crab", Crab, Position(2, 5)))) else g1
  }

  /** Loading a level for the bound players: load, recreate, place, clear the votes. */
  function Reload(levels: seq<Level>, s: ServerState, target: int): (s': ServerState)
    requires ValidTable(levels) && 0 <= target < |levels|
    ensures s'.level == target && !s'.game.completed && s'.fishVote.None? && s'.crabVote.None?
    ensures s'.game.cave == LoadLevel(levels[target]).cave && s'.game.objects == LoadLevel(levels[target]).objects
    ensures forall role: Role :: PlayerOf(s'.game, role).Some? <==> SlotOf(s, role).Some?
    ensures forall role: Role :: SlotOf(s, role).Some? ==>
              PlayerOf(s'.game, role) == Some(Player(SlotOf(s, role).value.clientId, if role == Fish then "Fish" else "Crab",
                                                     role, SpawnOf(role, target)))
    ensures s'.fishClient == s.fishClient && s'.crabClient == s.crabClient
    ensures s'.restartRequested == s.restartRequested && s'.restartRequester == s.restartRequester
  {
    var g := PlacePlayers(Recreate(LoadLevel(levels[target]), s), target);
    s.(game := g, level := target, fishVote := None, crabVote := None)
  }

  /** A reload followed by the LEVEL_DATA and STATE_UPDATE broadcasts. */
  function ReloadAndAnnounce(levels: seq<Level>, s: ServerState, target: int): (r: Step)
    requires ValidTable(levels) && 0 <= target < |levels|
    ensures r.state == Reload(levels, s, target)
    ensures r.out == [Outgoing(Everyone, LevelDataOf(levels[target])), StateBroadcast(r.state)]
  {
    var s' := Reload(levels, s, target);
    Step(s', [Outgoing(Everyone, LevelDataOf(levels[target])), StateBroadcast(s')])
  }

  // --------------------------------------------------------------------- join

  /** `String.equalsIgnoreCase` against an upper-case ASCII word: same length, and each
      character is the letter, its lower case, or one of the three non-ASCII characters
      whose case mapping lands on I or S (dotless i, dotted capital I, long s). */
  predicate EqualsIgnoreCase(word: string, s: string) {
    |s| == |word| && forall i | 0 <= i < |s| :: SameLetter(word[i], s[i])
  }

  predicate SameLetter(u: char, c: char) {
    || c == u
    || ('A' <= u <= 'Z' && c as int == u as int + 32)
    || (u == 'I' && (c == '\U{0131}' || c == '\U{0130}'))
    || (u == 'S' && c == '\U{017F}')
  }

  /** The role a JOIN asks for: FISH or CRAB in any letter case, otherwise none. */
  function RequestedRole(preferred: Option<string>): (r: Option<Role>)
    ensures r == Some(Fish) <==> preferred.Some? && EqualsIgnoreCase("FISH", preferred.value)
    ensures r == Some(Crab) <==> preferred.Some? && EqualsIgnoreCase("CRAB", preferred.value)
  {
    if preferred.None? then None
    else if EqualsIgnoreCase("FISH", preferred.value) then
      FishIsNotCrab(preferred.value);
      Some(Fish)
    else if EqualsIgnoreCase("CRAB", preferred.value) then Some(Crab)
    else None
  }

  lemma FishIsNotCrab(s: string)
    requires EqualsIgnoreCase("FISH", s)
    ensures !EqualsIgnoreCase("CRAB", s)
  {
    assert SameLetter("FISH"[0], s[0]);
  }

  /** `ClientHandler` gives its handler a fresh client id before each JOIN; a slot
      already bound to that handler reports the new id from then on. */
  function Rebind(slot: Option<Binding>, h: Handle, freshId: string): (r: Option<Binding>)
    ensures r.Some? <==> slot.Some?
    ensures slot.Some? ==> r.value.handle == slot.value.handle
    ensures BoundTo(slot, h) ==> r.value.clientId == freshId
    ensures !BoundTo(slot, h) ==> r == slot
  {
    if BoundTo(slot, h) then Some(Binding(h, freshId)) else slot
  }

  /** The role `handleJoin` gives: a free requested role, else FISH if free, else CRAB
      if free, else none (the server is full). */
  function AssignRole(s: ServerState, requested: Option<Role>): (r: Option<Role>)
    ensures requested.Some? && SlotOf(s, requested.value).None? ==> r == requested
    ensures !(requested.Some? && SlotOf(s, requested.value).None?) ==>
              r == (if s.fishClient.None? then Some(Fish) else if s.crabClient.None? then Some(Crab) else None)
    ensures r.Some? ==> SlotOf(s, r.value).None?
  {
    if requested == Some(Fish) && s.fishClient.None? then Some(Fish)
    else if requested == Some(Crab) && s.crabClient.None? then Some(Crab)
    else if s.fishClient.None? then Some(Fish)
    else if s.crabClient.None? then Some(Crab)
    else None
  }

  /** The second half of `handleJoin`, once `role` is known to be free: bind the
      handler, put the new player in, send back the role and the level, broadcast. */
  function Admit(levels: seq<Level>, s: ServerState, h: Handle, freshId: string, name: string, role: Role): (r: Step)
    requires Ready(levels, s) && SlotOf(s, role).None?
    ensures r.state.level == s.level && Ready(levels, r.state)
    ensures SlotOf(r.state, role) == Some(Binding(h, freshId))
    ensures SlotOf(r.state, role.Partner()) == SlotOf(s, role.Partner())
    ensures PlayerOf(r.state.game, role) == Some(Player(freshId, name, role, SpawnOf(role, s.level)))
    ensures PlayerOf(s.game, role.Partner()).Some? ==>
              PlayerOf(r.state.game, role.Partner()) == Some(PlayerOf(s.game, role.Partner()).value.(pos := SpawnOf(role.Partner(), s.level)))
    ensures PlayerOf(s.game, role.Partner()).None? ==> PlayerOf(r.state.game, role.Partner()).None?
    ensures r.state.game.cave == s.game.cave && r.state.game.objects == s.game.objects
    ensures r.state.game.completed == s.game.completed
    ensures r.state.fishVote == s.fishVote && r.state.crabVote == s.crabVote
    ensures r.state.restartRequested == s.restartRequested && r.state.restartRequester == s.restartRequester
    ensures r.out == [Outgoing(Client(h), RoleAssigned(freshId, role)),
                      Outgoing(Client(h), LevelDataOf(levels[s.level])),
                      StateBroadcast(r.state)]
  {
    var s2 := Bind(s, role, Binding(h, freshId));
    var spawn := if role == Fish then Position(1, 1) else Position(2, 5);
    var g := PlacePlayers(WithPlayer(s2.game, role, Player(freshId, name, role, spawn)), s2.level);
    var s3 := s2.(game := g);
    Step(s3, [Outgoing(Client(h), RoleAssigned(freshId, role)),
              Outgoing(Client(h), LevelDataOf(levels[s3.level])),
              StateBroadcast(s3)])
  }

  /** What `handleJoin` finds: the joiner's slot (if any) re-keyed to the fresh id, and
      the preferred level loaded when nobody is bound yet. */
  function Arrive(levels: seq<Level>, s: ServerState, h: Handle, freshId: string, preferredLevel: int): (s': ServerState)
    requires Ready(levels, s)
    ensures Ready(levels, s')
    ensures s'.fishClient == Rebind(s.fishClient, h, freshId) && s'.crabClient == Rebind(s.crabClient, h, freshId)
    ensures (s.fishClient.None? && s.crabClient.None? && 0 <= preferredLevel < |levels|) ==>
              s'.level == preferredLevel && s'.game == LoadLevel(levels[preferredLevel])
    ensures !(s.fishClient.None? && s.crabClient.None? && 0 <= preferredLevel < |levels|) ==>
              s'.level == s.level && s'.game == s.game
    ensures s'.fishVote == s.fishVote && s'.crabVote == s.crabVote
    ensures s'.restartRequested == s.restartRequested && s'.restartRequester == s.restartRequester
  {
    var s0 := s.(fishClient := Rebind(s.fishClient, h, freshId), crabClient := Rebind(s.crabClient, h, freshId));
    if s0.fishClient.None? && s0.crabClient.None? && 0 <= preferredLevel < |levels| then
      s0.(level := preferredLevel, game := LoadLevel(levels[preferredLevel]))
    else s0
  }

  /**
   * `handleJoin` for handler `h`, which has just been given `freshId`. The first
   * player to join may pick the level. A free requested role is honoured, otherwise
   * FISH then CRAB; a full server answers FULL and binds nobody. The joiner gets its
   * role and the level, and everyone gets the new state, in which both players are at
   * their spawns.
   */
  function Join(levels: seq<Level>, s: ServerState, h: Handle, freshId: string,
                name: string, preferredRole: Option<string>, preferredLevel: int): (r: Step)
    requires Ready(levels, s)
    ensures Ready(levels, r.state)
    // a full server: FULL to the joiner, no slot and no player changes
    ensures s.fishClient.Some? && s.crabClient.Some? ==>
              && r.out == [Outgoing(Client(h), Failure(Full))]
              && r.state == s.(fishClient := Rebind(s.fishClient, h, freshId),
                               crabClient := Rebind(s.crabClient, h, freshId))
    // the first player may choose the level
    ensures (s.fishClient.None? && s.crabClient.None? && 0 <= preferredLevel < |levels|) ==>
              r.state.level == preferredLevel
    ensures !(s.fishClient.None? && s.crabClient.None? && 0 <= preferredLevel < |levels|) ==>
              r.state.level == s.level
    // otherwise a role is assigned and announced
    ensures !(s.fishClient.Some? && s.crabClient.Some?) ==>
              var role := AssignRole(s, RequestedRole(preferredRole)).value;
              && SlotOf(s, role).None?
              && SlotOf(r.state, role) == Some(Binding(h, freshId))
              && PlayerOf(r.state.game, role) == Some(Player(freshId, name, role, SpawnOf(role, r.state.level)))
              && r.out == [Outgoing(Client(h), RoleAssigned(freshId, role)),
                           Outgoing(Client(h), LevelDataOf(levels[r.state.level])),
                           StateBroadcast(r.state)]
  {
    var s1 := Arrive(levels, s, h, freshId, preferredLevel);
    assert SlotOf(s1, Fish).None? == SlotOf(s, Fish).None? && SlotOf(s1, Crab).None? == SlotOf(s, Crab).None?;
    match AssignRole(s1, RequestedRole(preferredRole))
    case None => Step(s1, [Outgoing(Client(h), Failure(Full))])
    case Some(role) => Admit(levels, s1, h, freshId, name, role)
  }

  // -------------------------------------------------------------------- input

  /** `findPlayerById`: the player whose id is `id`, the fish checked first. */
  function FindPlayerById(g: GameState, id: string): (r: Option<Role>)
    ensures r.Some? ==> PlayerOf(g, r.value).Some? && PlayerOf(g, r.value).value.id == id
    ensures r.None? <==> !(g.fish.Some? && g.fish.value.id == id) && !(g.crab.Some? && g.crab.value.id == id)
    ensures g.fish.Some? && g.fish.value.id == id ==> r == Some(Fish)
  {
    if g.fish.Some? && g.fish.value.id == id then Some(Fish)
    else if g.crab.Some? && g.crab.value.id == id then Some(Crab)
    else None
  }

  /** The step of each move input: up is y - 1, down y + 1, left x - 1, right x + 1. */
  function Delta(t: Codec.InputType): (d: (int, int))
    ensures t.MoveUp? || t.MoveDown? || t.MoveLeft? || t.MoveRight? <==> d != (0, 0)
    ensures d.0 * d.0 + d.1 * d.1 <= 1
    // y grows downwards: up is the row above, left the column before
    ensures t.MoveUp? ==> d == (0, -1)
    ensures t.MoveDown? ==> d == (0, 1)
    ensures t.MoveLeft? ==> d == (-1, 0)
    ensures t.MoveRight? ==> d == (1, 0)
  {
    match t
    case MoveUp => (0, -1)
    case MoveDown => (0, 1)
    case MoveLeft => (-1, 0)
    case MoveRight => (1, 0)
    case _ => (0, 0)
  }

  /** `checkLevelCompleted`: the flag latches once both players stand on exits, and the
      votes are cleared at that moment; nothing else changes. */
  function Settle(s: ServerState): (s': ServerState)
    requires s.game.cave.Valid()
    ensures s'.game.completed <==> s.game.completed || BothOnExit(s.game)
    ensures s'.game == s.game.(completed := s'.game.completed)
    ensures !s.game.completed && s'.game.completed ==> s'.fishVote.None? && s'.crabVote.None?
    ensures !(!s.game.completed && s'.game.completed) ==> s'.fishVote == s.fishVote && s'.crabVote == s.crabVote
    ensures s'.fishClient == s.fishClient && s'.crabClient == s.crabClient && s'.level == s.level
    ensures s'.restartRequested == s.restartRequested && s'.restartRequester == s.restartRequester
  {
    var g := CheckLevelCompleted(s.game);
    if !s.game.completed && g.completed then s.(game := g, fishVote := None, crabVote := None)
    else s.(game := g)
  }

  /** `handlePostWinAction`: after a win, the fish's ACTION goes on to the next level
      (wrapping to level 0 after the last) and the crab's restarts the same level. */
  function PostWin(levels: seq<Level>, s: ServerState, role: Role): (r: Step)
    requires Ready(levels, s)
    ensures Ready(levels, r.state)
    ensures r.state.level == (if role == Fish then (s.level + 1) % |levels| else s.level)
    ensures r.state == Reload(levels, s, r.state.level)
    ensures r.out == [Outgoing(Everyone, LevelDataOf(levels[r.state.level])), StateBroadcast(r.state)]
  {
    if role == Fish then ReloadAndAnnounce(levels, s, (s.level + 1) % |levels|)
    else ReloadAndAnnounce(levels, s, s.level)
  }

  /**
   * `handleInput` for a message carrying `clientId`. Unknown ids and STOP do nothing.
   * After a win, ACTION is the post-win shortcut. Before it, the fish's ACTION
   * activates the mushrooms under it (the crab's does nothing), and a move is one step
   * of `Move`; both then check for the win and broadcast the state.
   */
  function Input(levels: seq<Level>, s: ServerState, clientId: string, t: Codec.InputType): (r: Step)
    requires Ready(levels, s) && s.game.cave.Valid()
    ensures Ready(levels, r.state)
    ensures FindPlayerById(s.game, clientId).None? ==> r == Step(s, [])
    ensures t.Stop? ==> r == Step(s, [])
    ensures FindPlayerById(s.game, clientId).Some? && t.Action? && s.game.completed ==>
              r == PostWin(levels, s, FindPlayerById(s.game, clientId).value)
    ensures FindPlayerById(s.game, clientId) == Some(Crab) && t.Action? && !s.game.completed ==> r == Step(s, [])
    // the fish's ACTION: activate, check, broadcast
    ensures FindPlayerById(s.game, clientId) == Some(Fish) && t.Action? && !s.game.completed ==>
              && r.state == Settle(s.(game := s.game.(objects := ActivateMushroomAt(s.game.objects, s.game.fish.value.pos))))
              && r.out == [StateBroadcast(r.state)]
    // a move: step, check, broadcast
    ensures FindPlayerById(s.game, clientId).Some? && Delta(t) != (0, 0) ==>
              && r.state == Settle(s.(game := Move(s.game, FindPlayerById(s.game, clientId).value, Delta(t).0, Delta(t).1)))
              && r.out == [StateBroadcast(r.state)]
    // completion is never cleared except by the post-win reload
    ensures s.game.completed && !t.Action? ==> r.state.game.completed
  {
    match FindPlayerById(s.game, clientId)
    case None => Step(s, [])
    case Some(role) =>
      if t.Action? && s.game.completed then PostWin(levels, s, role)
      else if t.Action? then
        if role == Fish then
          var s' := Settle(s.(game := s.game.(objects := ActivateMushroomAt(s.game.objects, s.game.fish.value.pos))));
          Step(s', [StateBroadcast(s')])
        else Step(s, [])
      else if t.Stop? then Step(s, [])
      else
        var (dx, dy) := Delta(t);
        var s' := Settle(s.(game := Move(s.game, role, dx, dy)));
        Step(s', [StateBroadcast(s')])
  }

  /** Which way a move input takes its sender when the cell is free and holds no box
      for a crab to push: MOVE_UP to the row above, MOVE_DOWN to the row below,
      MOVE_LEFT to the column before and MOVE_RIGHT to the column after. The player
      keeps its id and name; a blocked move leaves it in place. */
  lemma InputMoveDirection(levels: seq<Level>, s: ServerState, clientId: string, t: Codec.InputType)
    requires Ready(levels, s) && s.game.cave.Valid() && FindPlayerById(s.game, clientId).Some?
    ensures
      var role := FindPlayerById(s.game, clientId).value;
      var me := PlayerOf(s.game, role).value;
      var (x, y) := (me.pos.x, me.pos.y);
      var q := if t.MoveUp? then Position(x, y - 1) else if t.MoveDown? then Position(x, y + 1)
               else if t.MoveLeft? then Position(x - 1, y) else Position(x + 1, y);
      var after := PlayerOf(Input(levels, s, clientId, t).state.game, role);
      (t.MoveUp? || t.MoveDown? || t.MoveLeft? || t.MoveRight?) && !PushAttempt(s.game, role, q) ==>
        after == Some(if Free(s.game, q) then me.(pos := q) else me)
  {
  }

  // --------------------------------------------------------------------- vote

  /** The level both players agreed on: -1 means the next level, wrapping around. */
  function VoteTarget(levels: seq<Level>, s: ServerState, chosen: int): (target: int)
    requires Ready(levels, s) && -1 <= chosen < |levels|
    ensures 0 <= target < |levels|
    ensures chosen == -1 ==> target == (s.level + 1) % |levels|
    ensures chosen != -1 ==> target == chosen
  {
    if chosen == -1 then (s.level + 1) % |levels| else chosen
  }

  /** Once both votes are in: equal votes load the chosen level, different votes are
      reported as VOTE_FAIL to everyone; either way both votes are cleared. */
  function Tally(levels: seq<Level>, s: ServerState): (r: Step)
    requires Ready(levels, s)
    requires s.fishVote.Some? && s.fishVote == s.crabVote ==> -1 <= s.fishVote.value < |levels|
    ensures Ready(levels, r.state)
    ensures !(s.fishVote.Some? && s.crabVote.Some?) ==> r == Step(s, [])
    ensures s.fishVote.Some? && s.crabVote.Some? && s.fishVote == s.crabVote ==>
              && r.state == Reload(levels, s, VoteTarget(levels, s, s.fishVote.value))
              && r.out == [Outgoing(Everyone, LevelDataOf(levels[r.state.level])), StateBroadcast(r.state)]
    ensures s.fishVote.Some? && s.crabVote.Some? && s.fishVote != s.crabVote ==>
              && r.state == s.(fishVote := None, crabVote := None)
              && r.out == [Outgoing(Everyone, Failure(VoteFail))]
  {
    if s.fishVote.Some? && s.crabVote.Some? then
      if s.fishVote == s.crabVote then ReloadAndAnnounce(levels, s, VoteTarget(levels, s, s.fishVote.value))
      else Step(s.(fishVote := None, crabVote := None), [Outgoing(Everyone, Failure(VoteFail))])
    else Step(s, [])
  }

  /**
   * `handleLevelVote` from handler `h` for level `index` (-1 for "next"). Votes are
   * accepted only after a win and only for -1 up to the last level; the fish's
   * handler is matched first; a handler bound to no role is ignored.
   */
  function Vote(levels: seq<Level>, s: ServerState, h: Handle, index: int): (r: Step)
    requires Ready(levels, s)
    ensures Ready(levels, r.state)
    ensures !s.game.completed ==> r == Step(s, [Outgoing(Client(h), Failure(VoteDenied))])
    ensures s.game.completed && (index < -1 || index >= |levels|) ==> r == Step(s, [Outgoing(Client(h), Failure(BadVote))])
    ensures s.game.completed && -1 <= index < |levels| ==>
              && (BoundTo(s.fishClient, h) ==> r == Tally(levels, s.(fishVote := Some(index))))
              && (!BoundTo(s.fishClient, h) && BoundTo(s.crabClient, h) ==> r == Tally(levels, s.(crabVote := Some(index))))
              && (!BoundTo(s.fishClient, h) && !BoundTo(s.crabClient, h) ==> r == Step(s, []))
  {
    if !s.game.completed then Step(s, [Outgoing(Client(h), Failure(VoteDenied))])
    else if index < -1 || index >= |levels| then Step(s, [Outgoing(Client(h), Failure(BadVote))])
    else if BoundTo(s.fishClient, h) then Tally(levels, s.(fishVote := Some(index)))
    else if BoundTo(s.crabClient, h) then Tally(levels, s.(crabVote := Some(index)))
    else Step(s, [])
  }

  // ------------------------------------------------------------------ restart

  /** `restartCurrentLevelNoVote`: reload the current level for the bound players and
      drop any pending restart. */
  function RestartNoVote(levels: seq<Level>, s: ServerState): (r: Step)
    requires Ready(levels, s)
    ensures Ready(levels, r.state) && r.state.level == s.level
    ensures r.state == Reload(levels, s, s.level).(restartRequested := false, restartRequester := None)
    ensures r.out == [Outgoing(Everyone, LevelDataOf(levels[s.level])), StateBroadcast(r.state)]
  {
    var s' := Reload(levels, s, s.level).(restartRequested := false, restartRequester := None);
    Step(s', [Outgoing(Everyone, LevelDataOf(levels[s.level])), StateBroadcast(s')])
  }

  /** The name a restart offer carries: the requester's player name when `h` holds a
      role whose player exists (fish first), otherwise "Partner". */
  function RequesterName(s: ServerState, h: Handle): string {
    if BoundTo(s.fishClient, h) && s.game.fish.Some? then s.game.fish.value.name
    else if BoundTo(s.crabClient, h) && s.game.crab.Some? then s.game.crab.value.name
    else "Partner"
  }

  /**
   * `handleRestartRequest` from handler `h`. Nobody bound: ignored. One player bound:
   * the level restarts at once. Both bound: a request while one is pending is ignored;
   * otherwise it becomes the pending request and the other party gets the offer.
   */
  function RestartRequest(levels: seq<Level>, s: ServerState, h: Handle): (r: Step)
    requires Ready(levels, s)
    ensures Ready(levels, r.state)
    ensures s.fishClient.None? && s.crabClient.None? ==> r == Step(s, [])
    ensures s.fishClient.None? != s.crabClient.None? ==> r == RestartNoVote(levels, s)
    ensures s.fishClient.Some? && s.crabClient.Some? && s.restartRequested ==> r == Step(s, [])
    ensures s.fishClient.Some? && s.crabClient.Some? && !s.restartRequested ==>
              && r.state == s.(restartRequested := true, restartRequester := Some(h))
              && |r.out| == 1 && r.out[0].notice == RestartOffer(RequesterName(s, h))
              && r.out[0].to == Client(if BoundTo(s.fishClient, h) then s.crabClient.value.handle
                                       else s.fishClient.value.handle)
    // only the other party is offered the restart
    ensures (s.fishClient.Some? && s.crabClient.Some? && !s.restartRequested
             && BoundTo(s.fishClient, h) != BoundTo(s.crabClient, h)) ==> r.out[0].to != Client(h)
  {
    if s.fishClient.None? && s.crabClient.None? then Step(s, [])
    else if s.fishClient.None? || s.crabClient.None? then RestartNoVote(levels, s)
    else if s.restartRequested then Step(s, [])
    else
      var other := if BoundTo(s.fishClient, h) then s.crabClient.value.handle else s.fishClient.value.handle;
      Step(s.(restartRequested := true, restartRequester := Some(h)),
           [Outgoing(Client(other), RestartOffer(RequesterName(s, h)))])
  }

  /** `handleRestartResponse`: with a restart pending, a decline tells the requester and
      drops the request, an accept restarts the level; otherwise nothing happens. Which
      handler answers is not checked. */
  function RestartResponse(levels: seq<Level>, s: ServerState, accepted: bool): (r: Step)
    requires Ready(levels, s)
    ensures Ready(levels, r.state)
    ensures !s.restartRequested || s.restartRequester.None? ==> r == Step(s, [])
    ensures s.restartRequested && s.restartRequester.Some? && !accepted ==>
              && r.state == s.(restartRequested := false, restartRequester := None)
              && r.out == [Outgoing(Client(s.restartRequester.value), Failure(RestartDeclined))]
    ensures s.restartRequested && s.restartRequester.Some? && accepted ==> r == RestartNoVote(levels, s)
  {
    if !s.restartRequested || s.restartRequester.None? then Step(s, [])
    else if !accepted then
      Step(s.(restartRequested := false, restartRequester := None),
           [Outgoing(Client(s.restartRequester.value), Failure(RestartDeclined))])
    else RestartNoVote(levels, s)
  }

  // --------------------------------------------------------------- disconnect

  /** `handleDisconnect`: a handler holding no role changes nothing. Otherwise both
      roles are freed, the current level is reloaded without players, votes and any
      pending restart are dropped, and everyone is told PLAYER_LEFT. */
  function Disconnect(levels: seq<Level>, s: ServerState, h: Handle): (r: Step)
    requires Ready(levels, s)
    ensures Ready(levels, r.state)
    ensures !BoundTo(s.fishClient, h) && !BoundTo(s.crabClient, h) ==> r == Step(s, [])
    ensures BoundTo(s.fishClient, h) || BoundTo(s.crabClient, h) ==>
              && r.state.fishClient.None? && r.state.crabClient.None?
              && r.state.level == s.level && r.state.game == LoadLevel(levels[s.level])
              && r.state.game.fish.None? && r.state.game.crab.None?
              && r.state.fishVote.None? && r.state.crabVote.None?
              && !r.state.restartRequested && r.state.restartRequester.None?
              && r.out == [Outgoing(Everyone, Failure(PlayerLeft))]
  {
    if !BoundTo(s.fishClient, h) && !BoundTo(s.crabClient, h) then Step(s, [])
    else
      Step(ServerState(LoadLevel(levels[s.level]), None, None, s.level, None, None, false, None),
           [Outgoing(Everyone, Failure(PlayerLeft))])
  }

  // ----------------------------------------------------------------- dispatch

  /** One call into the logic. */
  datatype Event =
    | JoinEvent(handle: Handle, freshId: string, name: string, preferredRole: Option<string>, preferredLevel: int)
    | InputEvent(clientId: string, inputType: Codec.InputType)
    | VoteEvent(voter: Handle, index: int)
    | RestartRequestEvent(requester: Handle)
    | RestartResponseEvent(accepted: bool)
    | DisconnectEvent(leaver: Handle)

  function Apply(levels: seq<Level>, s: ServerState, e: Event): (r: Step)
    requires Ready(levels, s) && s.game.cave.Valid()
    ensures Ready(levels, r.state)
  {
    match e
    case JoinEvent(h, id, name, role, level) => Join(levels, s, h, id, name, role, level)
    case InputEvent(id, t) => Input(levels, s, id, t)
    case VoteEvent(h, index) => Vote(levels, s, h, index)
    case RestartRequestEvent(h) => RestartRequest(levels, s, h)
    case RestartResponseEvent(accepted) => RestartResponse(levels, s, accepted)
    case DisconnectEvent(h) => Disconnect(levels, s, h)
  }
}
