/**
 * What every reachable server state satisfies, and the promises that span several
 * handler calls: the level index stays inside the table, nobody stands on a wall,
 * a role has a player exactly when it has a connection, votes exist only after a
 * win, and a win is only ever undone by loading a level.
 */
module ServerProps {
  import opened Wrappers
  import opened Positions
  import opened CaveMaps
  import opened World
  import opened Server
  import Codec

  /** A spawn cell that lies on the level's grid and is not a wall. */
  predicate OpenCell(rows: Level, p: Position)
    requires ValidLevel(rows)
  {
    0 <= p.y < |rows| && 0 <= p.x < |rows[0]| && rows[p.y][p.x] != '#'
  }

  /** A level table whose every level has both of its spawn cells open. */
  predicate GoodTable(levels: seq<Level>) {
    && ValidTable(levels)
    && forall i | 0 <= i < |levels| :: OpenCell(levels[i], FishSpawn) && OpenCell(levels[i], CrabSpawn(i))
  }

  /** The invariant of the server between two handler calls. */
  predicate Inv(levels: seq<Level>, s: ServerState) {
    && GoodTable(levels)
    && 0 <= s.level < |levels|
    && s.game.cave == LoadLevel(levels[s.level]).cave
    && Sound(s.game)
    // a role has a player exactly when a handler holds it
    && (s.game.fish.Some? <==> s.fishClient.Some?)
    && (s.game.crab.Some? <==> s.crabClient.Some?)
    // a win needs both players
    && (s.game.completed ==> s.fishClient.Some? && s.crabClient.Some?)
    // a vote is only kept after a win, from a bound role, for a valid choice, and
    // never both at once (two votes are settled at once)
    && (s.fishVote.Some? ==> s.game.completed && s.fishClient.Some? && -1 <= s.fishVote.value < |levels|)
    && (s.crabVote.Some? ==> s.game.completed && s.crabClient.Some? && -1 <= s.crabVote.value < |levels|)
    && !(s.fishVote.Some? && s.crabVote.Some?)
    // a restart is pending exactly when its requester is known, and only with two players
    && (s.restartRequested <==> s.restartRequester.Some?)
    && (s.restartRequested ==> s.fishClient.Some? && s.crabClient.Some?)
  }

  /** A spawn cell of a level is walkable in any world drawn on that level's map. */
  lemma SpawnWalkable(levels: seq<Level>, i: int, g: GameState, role: Role)
    requires GoodTable(levels) && 0 <= i < |levels| && g.cave == LoadLevel(levels[i]).cave
    ensures Walkable(g, SpawnOf(role, i))
  {
    var p := SpawnOf(role, i);
    assert OpenCell(levels[i], p);
    assert g.cave.InBounds(p.x, p.y);
    assert GetTile(g.cave, p.x, p.y) == CharToTile(levels[i][p.y][p.x]);
  }

  /** The objects of a freshly loaded level stand on floor and apart, in any world on
      that level's map. */
  lemma FreshObjectsSound(rows: Level, g: GameState)
    requires ValidLevel(rows) && g.cave == LoadLevel(rows).cave && g.objects == LoadLevel(rows).objects
    ensures forall k | 0 <= k < |g.objects| :: Walkable(g, g.objects[k].pos)
    ensures BlockersApart(g.objects)
  {
    var l := LoadLevel(rows);
    LoadLevelSound(rows);
    assert forall k | 0 <= k < |g.objects| :: Walkable(l, l.objects[k].pos);
  }

  /** The server as constructed satisfies the invariant. */
  lemma InitInv(levels: seq<Level>)
    requires GoodTable(levels)
    ensures Inv(levels, Init(levels))
  {
    LoadLevelSound(levels[0]);
  }

  /** Loading any level of the table, with the restart bookkeeping in order, gives a
      state satisfying the invariant. */
  lemma ReloadInv(levels: seq<Level>, s: ServerState, target: int)
    requires GoodTable(levels) && 0 <= target < |levels|
    requires s.restartRequested <==> s.restartRequester.Some?
    requires s.restartRequested ==> s.fishClient.Some? && s.crabClient.Some?
    ensures Inv(levels, Reload(levels, s, target))
  {
    var s' := Reload(levels, s, target);
    FreshObjectsSound(levels[target], s'.game);
    if s.fishClient.Some? {
      assert PlayerOf(s'.game, Fish).Some?;
      SpawnWalkable(levels, target, s'.game, Fish);
    }
    if s.crabClient.Some? {
      assert PlayerOf(s'.game, Crab).Some?;
      SpawnWalkable(levels, target, s'.game, Crab);
    }
  }

  lemma RestartNoVoteInv(levels: seq<Level>, s: ServerState)
    requires Inv(levels, s)
    ensures Inv(levels, RestartNoVote(levels, s).state)
  {
    ReloadInv(levels, s, s.level);
  }

  // ------------------------------------------------------------------ join

  /** The first half of a join: rebinding keeps every slot's presence, and a level
      loaded for an empty server has no players, votes or pending restart to upset. */
  lemma ArriveInv(levels: seq<Level>, s: ServerState, h: Handle, freshId: string, preferredLevel: int)
    requires Inv(levels, s)
    ensures Inv(levels, Arrive(levels, s, h, freshId, preferredLevel))
  {
    if s.fishClient.None? && s.crabClient.None? && 0 <= preferredLevel < |levels| {
      LoadLevelSound(levels[preferredLevel]);
    }
  }

  /** The second half: the new player and its partner stand on their spawns, which are
      open cells of the current level. */
  lemma AdmitInv(levels: seq<Level>, s: ServerState, h: Handle, freshId: string, name: string, role: Role)
    requires Inv(levels, s) && SlotOf(s, role).None?
    ensures Inv(levels, Admit(levels, s, h, freshId, name, role).state)
  {
    var s2 := Admit(levels, s, h, freshId, name, role).state;
    SoundOnSpawns(levels, s.level, s.game, s2.game);
  }

  /** Players re-placed on their spawns, with map and objects kept, leave a sound
      world sound. */
  lemma SoundOnSpawns(levels: seq<Level>, i: int, g: GameState, g2: GameState)
    requires GoodTable(levels) && 0 <= i < |levels| && g.cave == LoadLevel(levels[i]).cave
    requires Sound(g) && g2.cave == g.cave && g2.objects == g.objects
    requires g2.fish.Some? ==> g2.fish.value.role == Fish && g2.fish.value.pos == SpawnOf(Fish, i)
    requires g2.crab.Some? ==> g2.crab.value.role == Crab && g2.crab.value.pos == SpawnOf(Crab, i)
    ensures Sound(g2)
  {
    SpawnWalkable(levels, i, g2, Fish);
    SpawnWalkable(levels, i, g2, Crab);
    assert forall k | 0 <= k < |g2.objects| :: Walkable(g2, g2.objects[k].pos) by {
      assert forall k | 0 <= k < |g.objects| :: Walkable(g, g.objects[k].pos);
    }
  }

  lemma JoinInv(levels: seq<Level>, s: ServerState, h: Handle, freshId: string,
                name: string, preferredRole: Option<string>, preferredLevel: int)
    requires Inv(levels, s)
    ensures Inv(levels, Join(levels, s, h, freshId, name, preferredRole, preferredLevel).state)
  {
    var s1 := Arrive(levels, s, h, freshId, preferredLevel);
    ArriveInv(levels, s, h, freshId, preferredLevel);
    match AssignRole(s1, RequestedRole(preferredRole))
    case None =>
    case Some(role) => AdmitInv(levels, s1, h, freshId, name, role);
  }

  // ----------------------------------------------------------------- input

  /** Activating mushrooms moves nothing, so it keeps the world sound. */
  lemma ActivateSound(g: GameState, p: Position)
    requires Sound(g)
    ensures Sound(g.(objects := ActivateMushroomAt(g.objects, p)))
  {
    var g' := g.(objects := ActivateMushroomAt(g.objects, p));
    assert forall k | 0 <= k < |g'.objects| :: g'.objects[k].pos == g.objects[k].pos && g'.objects[k].kind == g.objects[k].kind;
  }

  /** Settling the win flag keeps the invariant: a new win clears the votes. */
  lemma SettleInv(levels: seq<Level>, s: ServerState)
    requires Inv(levels, s)
    ensures Inv(levels, Settle(s))
  {
    var s' := Settle(s);
    assert forall k | 0 <= k < |s'.game.objects| :: Walkable(s'.game, s'.game.objects[k].pos) by {
      assert forall k | 0 <= k < |s.game.objects| :: Walkable(s.game, s.game.objects[k].pos);
    }
  }

  lemma InputInv(levels: seq<Level>, s: ServerState, clientId: string, t: Codec.InputType)
    requires Inv(levels, s)
    ensures Inv(levels, Input(levels, s, clientId, t).state)
  {
    match FindPlayerById(s.game, clientId)
    case None =>
    case Some(role) =>
      if t.Action? && s.game.completed {
        ReloadInv(levels, s, PostWin(levels, s, role).state.level);
      } else if t.Action? {
        if role == Fish {
          ActivateSound(s.game, s.game.fish.value.pos);
          SettleInv(levels, s.(game := s.game.(objects := ActivateMushroomAt(s.game.objects, s.game.fish.value.pos))));
        }
      } else if !t.Stop? {
        var (dx, dy) := Delta(t);
        MoveSound(s.game, role, dx, dy);
        SettleInv(levels, s.(game := Move(s.game, role, dx, dy)));
      }
  }

  // ------------------------------------------------------------------ vote

  lemma VoteInv(levels: seq<Level>, s: ServerState, h: Handle, index: int)
    requires Inv(levels, s)
    ensures Inv(levels, Vote(levels, s, h, index).state)
  {
    if s.game.completed && -1 <= index < |levels| {
      var s1 := if BoundTo(s.fishClient, h) then s.(fishVote := Some(index))
                else s.(crabVote := Some(index));
      if (BoundTo(s.fishClient, h) || BoundTo(s.crabClient, h)) && s1.fishVote.Some? && s1.crabVote.Some?
         && s1.fishVote == s1.crabVote {
        ReloadInv(levels, s1, VoteTarget(levels, s1, s1.fishVote.value));
      }
    }
  }

  // --------------------------------------------------------------- restart

  lemma RestartRequestInv(levels: seq<Level>, s: ServerState, h: Handle)
    requires Inv(levels, s)
    ensures Inv(levels, RestartRequest(levels, s, h).state)
  {
    if s.fishClient.None? != s.crabClient.None? {
      RestartNoVoteInv(levels, s);
    }
  }

  lemma RestartResponseInv(levels: seq<Level>, s: ServerState, accepted: bool)
    requires Inv(levels, s)
    ensures Inv(levels, RestartResponse(levels, s, accepted).state)
  {
    if s.restartRequested && accepted {
      RestartNoVoteInv(levels, s);
    }
  }

  // ------------------------------------------------------------ disconnect

  lemma DisconnectInv(levels: seq<Level>, s: ServerState, h: Handle)
    requires Inv(levels, s)
    ensures Inv(levels, Disconnect(levels, s, h).state)
  {
    LoadLevelSound(levels[s.level]);
  }

  // -------------------------------------------------------------- any event

  /** Every handler call keeps the invariant; in particular the level index stays in
      the table and no player or object ever stands on a wall. */
  lemma ApplyInv(levels: seq<Level>, s: ServerState, e: Event)
    requires Inv(levels, s)
    ensures Inv(levels, Apply(levels, s, e).state)
  {
    match e
    case JoinEvent(h, id, name, role, level) => JoinInv(levels, s, h, id, name, role, level);
    case InputEvent(id, t) => InputInv(levels, s, id, t);
    case VoteEvent(h, index) => VoteInv(levels, s, h, index);
    case RestartRequestEvent(h) => RestartRequestInv(levels, s, h);
    case RestartResponseEvent(accepted) => RestartResponseInv(levels, s, accepted);
    case DisconnectEvent(h) => DisconnectInv(levels, s, h);
  }

  /** The state after a run of handler calls from the constructed server. */
  function Run(levels: seq<Level>, events: seq<Event>): (s: ServerState)
    requires GoodTable(levels)
    ensures Inv(levels, s)
    decreases |events|
  {
    if events == [] then
      InitInv(levels);
      Init(levels)
    else
      var s0 := Run(levels, events[..|events| - 1]);
      ApplyInv(levels, s0, events[|events| - 1]);
      Apply(levels, s0, events[|events| - 1]).state
  }

  // ----------------------------------------------------- latched completion

  /** A world freshly loaded for the current level: its objects as the level places them
      and every present player on its spawn. */
  predicate FreshLevel(levels: seq<Level>, s: ServerState)
    requires Ready(levels, s)
  {
    && s.game.objects == LoadLevel(levels[s.level]).objects
    && !s.game.completed
    && forall role: Role :: PlayerOf(s.game, role).Some? ==> PlayerOf(s.game, role).value.pos == SpawnOf(role, s.level)
  }

  /** Once won, a level stays won until a level is loaded: any handler call either keeps
      the flag or leaves a freshly loaded level behind. */
  lemma CompletionLatched(levels: seq<Level>, s: ServerState, e: Event)
    requires Inv(levels, s) && s.game.completed
    ensures var r := Apply(levels, s, e);
            r.state.game.completed || FreshLevel(levels, r.state)
  {
    ApplyInv(levels, s, e);
  }

  /** A win is declared only when both players stand on exits. */
  lemma CompletionNeedsBothOnExit(levels: seq<Level>, s: ServerState, e: Event)
    requires Inv(levels, s) && !s.game.completed
    ensures var r := Apply(levels, s, e);
            r.state.game.completed ==> BothOnExit(r.state.game)
  {
    match e
    case JoinEvent(h, id, name, role, level) => JoinKeepsUnwon(levels, s, h, id, name, role, level);
    case InputEvent(id, t) =>
    case VoteEvent(h, index) =>
    case RestartRequestEvent(h) =>
    case RestartResponseEvent(accepted) =>
    case DisconnectEvent(h) =>
  }

  lemma JoinKeepsUnwon(levels: seq<Level>, s: ServerState, h: Handle, freshId: string,
                       name: string, preferredRole: Option<string>, preferredLevel: int)
    requires Ready(levels, s) && !s.game.completed
    ensures !Join(levels, s, h, freshId, name, preferredRole, preferredLevel).state.game.completed
  {
    var s1 := Arrive(levels, s, h, freshId, preferredLevel);
    match AssignRole(s1, RequestedRole(preferredRole))
    case None =>
    case Some(role) =>
  }
}
