/**
 * `PacketType`: the packet tokens of each connection phase and direction, and the lookups
 * between tokens and packet ids. The Handshaking, Status and Login phases have fixed ids;
 * the Game phase builds its tables at load time from per-version declaration lists, where a
 * token's id is its position in the list. The declaration lists (the `ServerboundPacketType_*`
 * and `ClientboundPacketType_*` enums) are inputs here, as the names of their constants in
 * declaration order.
 *
 * The static caches of the Java class are the fields of two registry objects, one per Game
 * direction. Their `IdentityHashMap`s keyed by boxed `Integer` ids are ordinary maps here:
 * that agrees with Java as long as the ids stay in the range of the `Integer` cache
 * (-128..127), i.e. as long as a declaration list has at most 128 entries.
 */
module PacketTypes {
  import opened Wrappers
  import opened Versions

  datatype PacketSide = CLIENT | SERVER
  datatype ConnectionState = HANDSHAKING | STATUS | LOGIN | GAME

  /** The exceptions of this file. */
  datatype LookupError =
    | NoSuchConstant   // `Enum.valueOf` of a name the enum does not declare
    | NullPointer      // `getPacketID` for a client version whose tables were never loaded

  // ---- Fixed-id phases -----------------------------------------------------------------

  datatype HandshakingClient = HANDSHAKE | LEGACY_SERVER_LIST_PING {
    function GetID(): int {
      match this
      case HANDSHAKE => 0
      case LEGACY_SERVER_LIST_PING => 254
    }
  }

  datatype StatusClient = REQUEST | PING {
    function GetID(): int {
      match this
      case REQUEST => 0
      case PING => 1
    }
  }

  datatype StatusServer = RESPONSE | PONG {
    function GetID(): int {
      match this
      case RESPONSE => 0
      case PONG => 1
    }
  }

  datatype LoginClient = LOGIN_START | ENCRYPTION_RESPONSE | LOGIN_PLUGIN_RESPONSE {
    function GetID(): int {
      match this
      case LOGIN_START => 0
      case ENCRYPTION_RESPONSE => 1
      case LOGIN_PLUGIN_RESPONSE => 2
    }
  }

  datatype LoginServer = DISCONNECT | ENCRYPTION_REQUEST | LOGIN_SUCCESS | SET_COMPRESSION | LOGIN_PLUGIN_REQUEST {
    function GetID(): int {
      match this
      case DISCONNECT => 0
      case ENCRYPTION_REQUEST => 1
      case LOGIN_SUCCESS => 2
      case SET_COMPRESSION => 3
      case LOGIN_PLUGIN_REQUEST => 4
    }
  }

  /** `Handshaking.Client.getById`: the token with that id, for exactly the ids 0 and 254. */
  function HandshakingClientById(packetID: int): (t: Option<HandshakingClient>)
    ensures t.Some? <==> packetID == 0 || packetID == 254
    ensures t.Some? ==> t.value.GetID() == packetID
  {
    if packetID == 0 then Some(HANDSHAKE)
    else if packetID == 254 then Some(LEGACY_SERVER_LIST_PING)
    else None
  }

  /** `Status.Client.getById`: the token with that id, for exactly the ids 0 and 1. */
  function StatusClientById(packetID: int): (t: Option<StatusClient>)
    ensures t.Some? <==> 0 <= packetID <= 1
    ensures t.Some? ==> t.value.GetID() == packetID
  {
    if packetID == 0 then Some(REQUEST)
    else if packetID == 1 then Some(PING)
    else None
  }

  /** `Status.Server.getById`: the token with that id, for exactly the ids 0 and 1. */
  function StatusServerById(packetID: int): (t: Option<StatusServer>)
    ensures t.Some? <==> 0 <= packetID <= 1
    ensures t.Some? ==> t.value.GetID() == packetID
  {
    if packetID == 0 then Some(RESPONSE)
    else if packetID == 1 then Some(PONG)
    else None
  }

  /** `Login.Client.getById`: the token with that id, for exactly the ids 0 to 2. */
  function LoginClientById(packetID: int): (t: Option<LoginClient>)
    ensures t.Some? <==> 0 <= packetID <= 2
    ensures t.Some? ==> t.value.GetID() == packetID
  {
    if packetID == 0 then Some(LOGIN_START)
    else if packetID == 1 then Some(ENCRYPTION_RESPONSE)
    else if packetID == 2 then Some(LOGIN_PLUGIN_RESPONSE)
    else None
  }

  /** `Login.Server.getById`: the token with that id, for exactly the ids 0 to 4. */
  function LoginServerById(packetID: int): (t: Option<LoginServer>)
    ensures t.Some? <==> 0 <= packetID <= 4
    ensures t.Some? ==> t.value.GetID() == packetID
  {
    match packetID
    case 0 => Some(DISCONNECT)
    case 1 => Some(ENCRYPTION_REQUEST)
    case 2 => Some(LOGIN_SUCCESS)
    case 3 => Some(SET_COMPRESSION)
    case 4 => Some(LOGIN_PLUGIN_REQUEST)
    case _ => None
  }

  /** Every fixed-phase token is found again by its own id: `getById(t.getID()) == t`. */
  lemma FixedIdsRoundTrip()
    ensures forall t: HandshakingClient :: HandshakingClientById(t.GetID()) == Some(t)
    ensures forall t: StatusClient :: StatusClientById(t.GetID()) == Some(t)
    ensures forall t: StatusServer :: StatusServerById(t.GetID()) == Some(t)
    ensures forall t: LoginClient :: LoginClientById(t.GetID()) == Some(t)
    ensures forall t: LoginServer :: LoginServerById(t.GetID()) == Some(t)
  {
  }

  // ---- Game phase: tables built from declaration lists ----------------------------------

  /** The constants of `Game.Client`, by name. */
  const GAME_CLIENT_NAMES: set<string> := {
    "TELEPORT_CONFIRM", "QUERY_BLOCK_NBT", "SET_DIFFICULTY", "CHAT_MESSAGE", "CLIENT_STATUS",
    "CLIENT_SETTINGS", "TAB_COMPLETE", "WINDOW_CONFIRMATION", "CLICK_WINDOW_BUTTON", "CLICK_WINDOW",
    "CLOSE_WINDOW", "PLUGIN_MESSAGE", "EDIT_BOOK", "QUERY_ENTITY_NBT", "INTERACT_ENTITY",
    "GENERATE_STRUCTURE", "KEEP_ALIVE", "LOCK_DIFFICULTY", "PLAYER_POSITION",
    "PLAYER_POSITION_AND_ROTATION", "PLAYER_ROTATION", "PLAYER_MOVEMENT", "VEHICLE_MOVE",
    "STEER_BOAT", "PICK_ITEM", "CRAFT_RECIPE_REQUEST", "PLAYER_ABILITIES", "PLAYER_DIGGING",
    "ENTITY_ACTION", "STEER_VEHICLE", "PONG", "RECIPE_BOOK_DATA", "SET_DISPLAYED_RECIPE",
    "SET_RECIPE_BOOK_STATE", "NAME_ITEM", "RESOURCE_PACK_STATUS", "ADVANCEMENT_TAB",
    "SELECT_TRADE", "SET_BEACON_EFFECT", "HELD_ITEM_CHANGE", "UPDATE_COMMAND_BLOCK",
    "UPDATE_COMMAND_BLOCK_MINECART", "CREATIVE_INVENTORY_ACTION", "UPDATE_JIGSAW_BLOCK",
    "UPDATE_STRUCTURE_BLOCK", "UPDATE_SIGN", "ANIMATION", "SPECTATE", "PLAYER_BLOCK_PLACEMENT",
    "USE_ITEM"
  }

  /** The constants of `Game.Server`, by name (116 of them). */
  const GAME_SERVER_NAMES: set<string> := {
    "SET_COMPRESSION", "MAP_CHUNK_BULK", "UPDATE_ENTITY_NBT", "UPDATE_SIGN", "USE_BED", "SPAWN_MOB",
    "SPAWN_GLOBAL_ENTITY", "SPAWN_WEATHER_ENTITY", "TITLE", "WORLD_BORDER", "COMBAT_EVENT",
    "ENTITY_MOVEMENT", "WINDOW_CONFIRMATION", "SPAWN_ENTITY", "SPAWN_EXPERIENCE_ORB",
    "SPAWN_LIVING_ENTITY", "SPAWN_PAINTING", "SPAWN_PLAYER", "SCULK_VIBRATION_SIGNAL",
    "ENTITY_ANIMATION", "STATISTICS", "ACKNOWLEDGE_PLAYER_DIGGING", "BLOCK_BREAK_ANIMATION",
    "BLOCK_ENTITY_DATA", "BLOCK_ACTION", "BLOCK_CHANGE", "BOSS_BAR", "SERVER_DIFFICULTY",
    "CHAT_MESSAGE", "CLEAR_TITLES", "TAB_COMPLETE", "MULTI_BLOCK_CHANGE", "DECLARE_COMMANDS",
    "CLOSE_WINDOW", "WINDOW_ITEMS", "WINDOW_PROPERTY", "SET_SLOT", "SET_COOLDOWN", "PLUGIN_MESSAGE",
    "NAMED_SOUND_EFFECT", "DISCONNECT", "ENTITY_STATUS", "EXPLOSION", "UNLOAD_CHUNK",
    "CHANGE_GAME_STATE", "OPEN_HORSE_WINDOW", "INITIALIZE_WORLD_BORDER", "KEEP_ALIVE", "CHUNK_DATA",
    "EFFECT", "PARTICLE", "UPDATE_LIGHT", "JOIN_GAME", "MAP_DATA", "TRADE_LIST",
    "ENTITY_RELATIVE_MOVE", "ENTITY_LOOK_AND_RELATIVE_MOVE", "ENTITY_LOOK", "VEHICLE_MOVE",
    "OPEN_BOOK", "OPEN_WINDOW", "OPEN_SIGN_EDITOR", "PING", "CRAFT_RECIPE_RESPONSE",
    "PLAYER_ABILITIES", "END_COMBAT_EVENT", "ENTER_COMBAT_EVENT", "DEATH_COMBAT_EVENT",
    "PLAYER_INFO", "FACE_PLAYER", "PLAYER_POSITION_AND_LOOK", "UNLOCK_RECIPES", "DESTROY_ENTITY",
    "REMOVE_ENTITY_EFFECT", "RESOURCE_PACK_SEND", "RESPAWN", "ENTITY_HEAD_LOOK",
    "SELECT_ADVANCEMENT_TAB", "ACTION_BAR", "WORLD_BORDER_CENTER", "WORLD_BORDER_LERP_SIZE",
    "WORLD_BORDER_SIZE", "WORLD_BORDER_WARNING_DELAY", "WORLD_BORDER_WARNING_REACH", "CAMERA",
    "HELD_ITEM_CHANGE", "UPDATE_VIEW_POSITION", "UPDATE_VIEW_DISTANCE", "SPAWN_POSITION",
    "DISPLAY_SCOREBOARD", "ENTITY_METADATA", "ATTACH_ENTITY", "ENTITY_VELOCITY", "ENTITY_EQUIPMENT",
    "SET_EXPERIENCE", "UPDATE_HEALTH", "SCOREBOARD_OBJECTIVE", "SET_PASSENGERS", "TEAMS",
    "UPDATE_SCORE", "SET_TITLE_SUBTITLE", "TIME_UPDATE", "SET_TITLE_TEXT", "SET_TITLE_TIME",
    "ENTITY_SOUND_EFFECT", "SOUND_EFFECT", "STOP_SOUND", "PLAYER_LIST_HEADER_AND_FOOTER",
    "NBT_QUERY_RESPONSE", "COLLECT_ITEM", "ENTITY_TELEPORT", "ADVANCEMENTS", "ENTITY_PROPERTIES",
    "ENTITY_EFFECT", "DECLARE_RECIPES", "TAGS"
  }

  /** `valueOf(name)` of an enum whose constants are named `names`. */
  function ValueOf<T>(names: set<T>, name: T): (r: Result<T, LookupError>)
    ensures r.Success? <==> name in names
    ensures r.Success? ==> r.value == name
  {
    if name in names then Success(name) else Failure(NoSuchConstant)
  }

  /** Java enum constants have distinct names. */
  predicate Distinct<T(==)>(names: seq<T>) {
    forall i, j :: 0 <= i < j < |names| ==> names[i] != names[j]
  }

  /**
   * The id-to-token map a loader builds from `names`, putting `id -> names[id]` for each
   * position in turn: every position, and only positions, is an id, mapped to the name there.
   */
  function IdTable<T>(names: seq<T>): (m: map<int, T>)
    ensures forall id :: id in m <==> 0 <= id < |names|
    ensures forall id :: id in m ==> m[id] == names[id]
  {
    if names == [] then map[]
    else IdTable(names[..|names| - 1])[|names| - 1 := names[|names| - 1]]
  }

  /**
   * The token-to-id map a loader builds from `names`, putting `names[id] -> id` for each
   * position in turn: each key is mapped to a position holding it.
   */
  function PositionMap<T>(names: seq<T>): (m: map<T, int>)
    ensures forall n :: n in m ==> 0 <= m[n] < |names| && names[m[n]] == n
  {
    if names == [] then map[]
    else PositionMap(names[..|names| - 1])[names[|names| - 1] := |names| - 1]
  }

  /**
   * Every listed name is a key of the token-to-id map, mapped to its last position (a later
   * put overwrites an earlier one).
   */
  lemma {:induction false} PositionMapComplete<T>(names: seq<T>)
    ensures forall i :: 0 <= i < |names| ==> names[i] in PositionMap(names) && i <= PositionMap(names)[names[i]]
  {
    if names != [] {
      var init := names[..|names| - 1];
      PositionMapComplete(init);
      forall i | 0 <= i < |names| - 1
        ensures names[i] in PositionMap(names) && i <= PositionMap(names)[names[i]]
      {
        assert init[i] == names[i];
      }
    }
  }

  /**
   * For a declaration list (distinct names) the two tables are inverse bijections between
   * the positions `0..|names|-1` and the listed names.
   */
  lemma TablesAreInverse<T>(names: seq<T>)
    requires Distinct(names)
    ensures forall id :: id in IdTable(names) ==>
      IdTable(names)[id] in PositionMap(names) && PositionMap(names)[IdTable(names)[id]] == id
    ensures forall n :: n in PositionMap(names) ==> IdTable(names)[PositionMap(names)[n]] == n
  {
    PositionMapComplete(names);
    forall id | id in IdTable(names)
      ensures IdTable(names)[id] in PositionMap(names) && PositionMap(names)[IdTable(names)[id]] == id
    {
      var k := PositionMap(names)[names[id]];
      assert names[k] == names[id];
    }
  }

  /** The index of the first name that is not in `valid`, or `|names|` when all are. */
  function FirstInvalid<T>(names: seq<T>, valid: set<T>): (k: nat)
    ensures k <= |names|
    ensures forall i :: 0 <= i < k ==> names[i] in valid
    ensures k < |names| ==> names[k] !in valid
  {
    if names == [] || names[0] !in valid then 0 else 1 + FirstInvalid(names[1..], valid)
  }

  /** The declaration lists of the serverbound packets (`ServerboundPacketType_*`). */
  datatype ServerboundList =
    | SERVERBOUND_1_7_10 | SERVERBOUND_1_8 | SERVERBOUND_1_9 | SERVERBOUND_1_12 | SERVERBOUND_1_12_1
    | SERVERBOUND_1_13 | SERVERBOUND_1_14 | SERVERBOUND_1_15_2 | SERVERBOUND_1_16
    | SERVERBOUND_1_16_2 | SERVERBOUND_1_17

  /** The declaration lists of the clientbound packets (`ClientboundPacketType_*`). */
  datatype ClientboundList =
    | CLIENTBOUND_1_7_10 | CLIENTBOUND_1_8 | CLIENTBOUND_1_9 | CLIENTBOUND_1_9_3 | CLIENTBOUND_1_12
    | CLIENTBOUND_1_12_1 | CLIENTBOUND_1_13 | CLIENTBOUND_1_14 | CLIENTBOUND_1_14_4
    | CLIENTBOUND_1_15 | CLIENTBOUND_1_15_2 | CLIENTBOUND_1_16 | CLIENTBOUND_1_16_2
    | CLIENTBOUND_1_17

  /** The calls `Game.Client.load` makes, in order: a client version and the list loaded for it. */
  const CLIENT_LOADS: seq<(ClientVersion, ServerboundList)> := [
    (CLIENT_1_7_10, SERVERBOUND_1_7_10), (CLIENT_1_8, SERVERBOUND_1_8),
    (CLIENT_1_9, SERVERBOUND_1_9), (CLIENT_1_9_1, SERVERBOUND_1_9), (CLIENT_1_9_2, SERVERBOUND_1_9),
    (CLIENT_1_9_3, SERVERBOUND_1_9), (CLIENT_1_10, SERVERBOUND_1_9), (CLIENT_1_11, SERVERBOUND_1_9),
    (CLIENT_1_11_1, SERVERBOUND_1_9), (CLIENT_1_12, SERVERBOUND_1_12),
    (CLIENT_1_12_1, SERVERBOUND_1_12_1), (CLIENT_1_12_2, SERVERBOUND_1_12_1),
    (CLIENT_1_13, SERVERBOUND_1_13), (CLIENT_1_14, SERVERBOUND_1_14),
    (CLIENT_1_14_1, SERVERBOUND_1_14), (CLIENT_1_14_2, SERVERBOUND_1_14),
    (CLIENT_1_14_3, SERVERBOUND_1_14), (CLIENT_1_14_4, SERVERBOUND_1_14),
    (CLIENT_1_15, SERVERBOUND_1_14), (CLIENT_1_15_1, SERVERBOUND_1_14),
    (CLIENT_1_15_2, SERVERBOUND_1_15_2), (CLIENT_1_16, SERVERBOUND_1_16),
    (CLIENT_1_16_1, SERVERBOUND_1_16), (CLIENT_1_16_2, SERVERBOUND_1_16_2),
    (CLIENT_1_16_3, SERVERBOUND_1_16_2), (CLIENT_1_16_4, SERVERBOUND_1_16_2),
    (CLIENT_1_17, SERVERBOUND_1_17), (CLIENT_1_17_1, SERVERBOUND_1_17)
  ]

  /** Each call of `Game.Client.load` is for a newer client version than the one before. */
  lemma ClientLoadsIncrease()
    ensures forall i :: 0 <= i < |CLIENT_LOADS| - 1 ==>
      CLIENT_LOADS[i].0.protocolVersion < CLIENT_LOADS[i + 1].0.protocolVersion
  {
  }

  /** Hence no client version is loaded twice. */
  lemma {:induction false} IncreasingIsDistinct(loads: seq<(ClientVersion, ServerboundList)>, j: nat)
    requires forall i :: 0 <= i < |loads| - 1 ==> loads[i].0.protocolVersion < loads[i + 1].0.protocolVersion
    requires j < |loads|
    ensures forall i :: 0 <= i < j ==> loads[i].0.protocolVersion < loads[j].0.protocolVersion
  {
    if j > 0 {
      IncreasingIsDistinct(loads, j - 1);
    }
  }

  /** The client versions of the first `k` calls in `loads`. */
  function LoadedVersions<T>(loads: seq<(ClientVersion, T)>, k: nat): (vs: set<ClientVersion>)
    requires k <= |loads|
    ensures forall i :: 0 <= i < k ==> loads[i].0 in vs
  {
    set i | 0 <= i < k :: loads[i].0
  }

  /** One more call adds exactly its version; the first `k` calls are among all of them. */
  lemma LoadedVersionsStep<T>(loads: seq<(ClientVersion, T)>, k: nat)
    requires k < |loads|
    ensures LoadedVersions(loads, k + 1) == LoadedVersions(loads, k) + {loads[k].0}
    ensures LoadedVersions(loads, k) <= LoadedVersions(loads, |loads|)
  {
  }

  /** `after` has the keys of `before` and `vs`, and every key of `before` outside `vs` kept its value. */
  ghost predicate KeptOutside<K, V>(before: map<K, V>, after: map<K, V>, vs: set<K>) {
    && after.Keys == before.Keys + vs
    && forall v :: v in before && v !in vs ==> v in after && after[v] == before[v]
  }

  /** Storing under one more key keeps the frame, with that key added to `vs`. */
  lemma KeptOutsideStore<K, V>(before: map<K, V>, after: map<K, V>, vs: set<K>, k: K, x: V)
    requires KeptOutside(before, after, vs)
    ensures KeptOutside(before, after[k := x], vs + {k})
  {
  }

  /** One more position adds exactly its entry to each table. */
  lemma IdTableSnoc<T>(names: seq<T>, id: nat)
    requires id < |names|
    ensures IdTable(names[..id + 1]) == IdTable(names[..id])[id := names[id]]
    ensures PositionMap(names[..id + 1]) == PositionMap(names[..id])[names[id] := id]
  {
    assert names[..id + 1][..id] == names[..id];
  }

  /**
   * The loop of `Game.Client.loadPacketIDs`: for each position in turn, look the name up
   * with `valueOf` and put `id -> token` and `token -> id` into two fresh maps. It yields
   * the two tables of the list exactly when every name is a constant.
   */
  method BuildTables<T(==)>(constants: set<T>, enumConstants: seq<T>)
    returns (r: Result<(map<int, T>, map<T, int>), LookupError>)
    ensures r.Success? <==> forall i :: 0 <= i < |enumConstants| ==> enumConstants[i] in constants
    ensures r.Success? ==> r.value == (IdTable(enumConstants), PositionMap(enumConstants))
    ensures r.Failure? ==> r.error == NoSuchConstant
  {
    var innerMap: map<int, T> := map[];
    var secondInnerMap: map<T, int> := map[];
    for id := 0 to |enumConstants|
      invariant innerMap == IdTable(enumConstants[..id])
      invariant secondInnerMap == PositionMap(enumConstants[..id])
      invariant forall i :: 0 <= i < id ==> enumConstants[i] in constants
    {
      var value :- ValueOf(constants, enumConstants[id]);
      IdTableSnoc(enumConstants, id);
      innerMap := innerMap[id := value];
      secondInnerMap := secondInnerMap[value := id];
    }
    assert enumConstants[..|enumConstants|] == enumConstants;
    r := Success((innerMap, secondInnerMap));
  }

  /** The static caches of `Game.Client`. */
  class GameClientRegistry {
    /** The names of the `Game.Client` constants, which `valueOf` accepts. */
    const constants: set<string>
    /** `PACKET_ID_CACHE`: per client version, packet id to token. */
    var packetIdCache: map<ClientVersion, map<int, string>>
    /** `PACKET_TYPE_CACHE`: per client version, token to packet id. */
    var packetTypeCache: map<ClientVersion, map<string, int>>
    /** The declaration list each loaded version's tables were built from. */
    ghost var lists: map<ClientVersion, seq<string>>

    ghost predicate Valid()
      reads this
    {
      && packetIdCache.Keys == lists.Keys && packetTypeCache.Keys == lists.Keys
      && forall v :: v in lists ==>
           packetIdCache[v] == IdTable(lists[v]) && packetTypeCache[v] == PositionMap(lists[v])
    }

    /** The caches as the class initialiser leaves them: empty. */
    constructor ()
      ensures Valid() && lists == map[] && constants == GAME_CLIENT_NAMES
    {
      constants := GAME_CLIENT_NAMES;
      packetIdCache := map[];
      packetTypeCache := map[];
      lists := map[];
    }

    /**
     * `loadPacketIDs(version, enumConstants)`: build both tables for `version` and store them.
     * A name that is not a `Game.Client` constant throws before anything is stored.
     */
    method LoadPacketIDs(version: ClientVersion, enumConstants: seq<string>) returns (r: Result<(), LookupError>)
      requires Valid()
      modifies this
      ensures Valid()
      ensures r.Success? <==> forall i :: 0 <= i < |enumConstants| ==> enumConstants[i] in constants
      ensures lists == if r.Success? then old(lists)[version := enumConstants] else old(lists)
    {
      var tables :- BuildTables(constants, enumConstants);
      packetIdCache := packetIdCache[version := tables.0];
      packetTypeCache := packetTypeCache[version := tables.1];
      lists := lists[version := enumConstants];
      r := Success(());
    }

    /**
     * `load`: one `loadPacketIDs` per supported client version, in the order of
     * `CLIENT_LOADS`, each with the declaration list named there; the first list that names
     * a constant `Game.Client` does not declare throws out of `load`. On success every
     * version has its list's tables, so versions sharing a list have identical tables.
     * Versions `load` does not name keep whatever they had, and no other version is added.
     */
    method Load(declarations: ServerboundList -> seq<string>) returns (r: Result<(), LookupError>)
      requires Valid()
      modifies this
      ensures Valid()
      ensures r.Success? ==> forall i :: 0 <= i < |CLIENT_LOADS| ==>
        CLIENT_LOADS[i].0 in lists && lists[CLIENT_LOADS[i].0] == declarations(CLIENT_LOADS[i].1)
      ensures r.Success? ==> lists.Keys == old(lists.Keys) + LoadedVersions(CLIENT_LOADS, |CLIENT_LOADS|)
      ensures lists.Keys <= old(lists.Keys) + LoadedVersions(CLIENT_LOADS, |CLIENT_LOADS|)
      ensures forall v :: v in old(lists) && v !in LoadedVersions(CLIENT_LOADS, |CLIENT_LOADS|) ==>
        v in lists && lists[v] == old(lists[v])
    {
      ClientLoadsIncrease();
      r := LoadEach(CLIENT_LOADS, declarations);
    }

    /** The loop of `load`, over any sequence of calls for increasing client versions. */
    method LoadEach(loads: seq<(ClientVersion, ServerboundList)>, declarations: ServerboundList -> seq<string>)
      returns (r: Result<(), LookupError>)
      requires Valid()
      requires forall i :: 0 <= i < |loads| - 1 ==> loads[i].0.protocolVersion < loads[i + 1].0.protocolVersion
      modifies this
      ensures Valid()
      ensures r.Success? ==> forall i :: 0 <= i < |loads| ==>
        loads[i].0 in lists && lists[loads[i].0] == declarations(loads[i].1)
      ensures r.Success? ==> lists.Keys == old(lists.Keys) + LoadedVersions(loads, |loads|)
      ensures lists.Keys <= old(lists.Keys) + LoadedVersions(loads, |loads|)
      ensures forall v :: v in old(lists) && v !in LoadedVersions(loads, |loads|) ==>
        v in lists && lists[v] == old(lists[v])
    {
      for k := 0 to |loads|
        invariant LoadedSoFar(old(lists), loads, k, declarations)
      {
        r := LoadStep(old(lists), loads, k, declarations);
        if r.Failure? {
          LoadedVersionsStep(loads, k);
          return;
        }
      }
      r := Success(());
    }

    /** The first `k` calls of `loads` are done, and nothing else was touched. */
    ghost predicate LoadedSoFar(before: map<ClientVersion, seq<string>>, loads: seq<(ClientVersion, ServerboundList)>,
                                k: nat, declarations: ServerboundList -> seq<string>)
      requires k <= |loads|
      reads this
    {
      && Valid()
      && (forall i :: 0 <= i < k ==> loads[i].0 in lists && lists[loads[i].0] == declarations(loads[i].1))
      && KeptOutside(before, lists, LoadedVersions(loads, k))
    }

    /** One iteration of `load`: the `k`-th call of `loadPacketIDs`. */
    method LoadStep(ghost before: map<ClientVersion, seq<string>>, loads: seq<(ClientVersion, ServerboundList)>,
                    k: nat, declarations: ServerboundList -> seq<string>) returns (r: Result<(), LookupError>)
      requires forall i :: 0 <= i < |loads| - 1 ==> loads[i].0.protocolVersion < loads[i + 1].0.protocolVersion
      requires k < |loads| && LoadedSoFar(before, loads, k, declarations)
      modifies this
      ensures r.Success? ==> LoadedSoFar(before, loads, k + 1, declarations)
      ensures r.Failure? ==> LoadedSoFar(before, loads, k, declarations)
    {
      IncreasingIsDistinct(loads, k);
      LoadedVersionsStep(loads, k);
      r := LoadPacketIDs(loads[k].0, declarations(loads[k].1));
      if r.Success? {
        KeptOutsideStore(before, old(lists), LoadedVersions(loads, k), loads[k].0, declarations(loads[k].1));
      }
    }

    /** After a successful `load`, two versions loaded from the same list have identical tables. */
    lemma SharedListsShareTables(declarations: ServerboundList -> seq<string>, i: nat, j: nat)
      requires Valid() && i < |CLIENT_LOADS| && j < |CLIENT_LOADS| && CLIENT_LOADS[i].1 == CLIENT_LOADS[j].1
      requires forall k :: 0 <= k < |CLIENT_LOADS| ==>
        CLIENT_LOADS[k].0 in lists && lists[CLIENT_LOADS[k].0] == declarations(CLIENT_LOADS[k].1)
      ensures packetIdCache[CLIENT_LOADS[i].0] == packetIdCache[CLIENT_LOADS[j].0]
      ensures packetTypeCache[CLIENT_LOADS[i].0] == packetTypeCache[CLIENT_LOADS[j].0]
    {
    }

    /**
     * `getById(version, packetID)`: the token at position `packetID` of the list loaded for
     * `version`; nothing for a null or unloaded version or an id outside the list.
     */
    function GetById(version: Option<ClientVersion>, packetID: int): (t: Option<string>)
      reads this
      requires Valid()
      ensures t.Some? <==> version.Some? && version.value in lists && 0 <= packetID < |lists[version.value]|
      ensures t.Some? ==> t.value == lists[version.value][packetID]
    {
      if version.None? || version.value !in packetIdCache then None
      else
        var innerMap := packetIdCache[version.value];
        if packetID in innerMap then Some(innerMap[packetID]) else None
    }

    /**
     * `token.getPacketID(version)`: the token's position in the list loaded for `version`,
     * -1 when it is not listed there; a version never loaded throws (the outer map has no
     * entry to call `getOrDefault` on).
     */
    function GetPacketID(token: string, version: ClientVersion): (r: Result<int, LookupError>)
      reads this
      requires Valid()
      ensures r.Failure? <==> version !in lists
      ensures r.Failure? ==> r.error == NullPointer
      ensures r.Success? ==> (r.value == -1 <==> token !in lists[version])
      ensures r.Success? && r.value != -1 ==>
        0 <= r.value < |lists[version]| && lists[version][r.value] == token
    {
      if version !in packetTypeCache then Failure(NullPointer)
      else
        var innerMap := packetTypeCache[version];
        PositionMapComplete(lists[version]);
        Success(if token in innerMap then innerMap[token] else -1)
    }

    /**
     * For a loaded version, a token's packet id finds the token again, and the token at an
     * id has that id.
     */
    lemma IdsRoundTrip(version: ClientVersion, token: string, packetID: int)
      requires Valid() && version in lists && Distinct(lists[version])
      ensures token in lists[version] ==> GetById(Some(version), GetPacketID(token, version).value) == Some(token)
      ensures GetById(Some(version), packetID).Some? ==>
        GetPacketID(GetById(Some(version), packetID).value, version) == Success(packetID)
    {
      TablesAreInverse(lists[version]);
    }
  }

  // ---- Game.Server: one list, chosen by the server version --------------------------------

  /** The bounds of `Game.Server.load`'s if-else chain, in order. */
  const SERVER_BOUNDS: seq<ServerVersion> := [
    SERVER_1_8, SERVER_1_9, SERVER_1_9_4, SERVER_1_12, SERVER_1_12_1, SERVER_1_13, SERVER_1_14,
    SERVER_1_14_4, SERVER_1_15, SERVER_1_15_2, SERVER_1_16, SERVER_1_16_2, SERVER_1_17
  ]

  /** The list loaded below each bound, and last the list for versions at or above them all. */
  const SERVER_LISTS: seq<ClientboundList> := [
    CLIENTBOUND_1_7_10, CLIENTBOUND_1_8, CLIENTBOUND_1_9, CLIENTBOUND_1_9_3, CLIENTBOUND_1_12,
    CLIENTBOUND_1_12_1, CLIENTBOUND_1_13, CLIENTBOUND_1_14, CLIENTBOUND_1_14_4, CLIENTBOUND_1_15,
    CLIENTBOUND_1_15_2, CLIENTBOUND_1_16, CLIENTBOUND_1_16_2, CLIENTBOUND_1_17
  ]

  /** The first bound at or after `from` that `version` is older than, or `|SERVER_BOUNDS|`. */
  function FloorFrom(version: ServerVersion, from: nat): (k: nat)
    requires from <= |SERVER_BOUNDS|
    ensures from <= k <= |SERVER_BOUNDS|
    ensures forall i :: from <= i < k ==> !IsOlderThan(version, SERVER_BOUNDS[i])
    ensures k < |SERVER_BOUNDS| ==> IsOlderThan(version, SERVER_BOUNDS[k])
    decreases |SERVER_BOUNDS| - from
  {
    if from == |SERVER_BOUNDS| || IsOlderThan(version, SERVER_BOUNDS[from]) then from
    else FloorFrom(version, from + 1)
  }

  /** The position of the list `Game.Server.load` picks: the first bound `version` is older than. */
  function FloorIndex(version: ServerVersion): (k: nat)
    ensures k < |SERVER_LISTS|
  {
    FloorFrom(version, 0)
  }

  /** A newer server version never stops the chain earlier than an older one. */
  lemma {:induction false} FloorFromMonotone(older: ServerVersion, newer: ServerVersion, from: nat)
    requires older.protocolVersion <= newer.protocolVersion && from <= |SERVER_BOUNDS|
    ensures FloorFrom(older, from) <= FloorFrom(newer, from)
    decreases |SERVER_BOUNDS| - from
  {
    if from < |SERVER_BOUNDS| && !IsOlderThan(older, SERVER_BOUNDS[from]) {
      FloorFromMonotone(older, newer, from + 1);
    }
  }

  /**
   * A newer server version never picks an earlier list, and every version from 1.17 on
   * picks the 1.17 list.
   */
  lemma FloorMonotone(older: ServerVersion, newer: ServerVersion)
    requires older.protocolVersion <= newer.protocolVersion
    ensures FloorIndex(older) <= FloorIndex(newer)
    ensures newer.protocolVersion >= SERVER_1_17.protocolVersion ==> SERVER_LISTS[FloorIndex(newer)] == CLIENTBOUND_1_17
  {
    FloorFromMonotone(older, newer, 0);
  }

  /**
   * The `id` fields after the server loop has handled `names`: starting from `ids`, each
   * position in turn sets the field of its constant to the position.
   */
  function AssignIds<T>(ids: map<T, int>, names: seq<T>): map<T, int> {
    if names == [] then ids
    else AssignIds(ids, names[..|names| - 1])[names[|names| - 1] := |names| - 1]
  }

  /** The server cache after the loop has handled `names`, starting from `cache`. */
  function CacheIds<T>(cache: map<int, T>, names: seq<T>): map<int, T> {
    if names == [] then cache
    else CacheIds(cache, names[..|names| - 1])[|names| - 1 := names[|names| - 1]]
  }

  /**
   * What the loop leaves: the constants it handled carry the id of the token-to-id table
   * over the old fields, and the cache holds the id-to-token table over the old cache.
   */
  lemma {:induction false} AssignedIsTable<T>(ids: map<T, int>, cache: map<int, T>, names: seq<T>)
    ensures AssignIds(ids, names) == ids + PositionMap(names)
    ensures CacheIds(cache, names) == cache + IdTable(names)
  {
    if names != [] {
      var init := names[..|names| - 1];
      AssignedIsTable(ids, cache, init);
      UnionUpdate(ids, PositionMap(init), names[|names| - 1], |names| - 1);
      UnionUpdate(cache, IdTable(init), |names| - 1, names[|names| - 1]);
    }
  }

  /** Updating a union is updating its right operand. */
  lemma UnionUpdate<K, V>(m: map<K, V>, n: map<K, V>, k: K, v: V)
    ensures (m + n)[k := v] == m + n[k := v]
  {
  }

  /**
   * The loop of `Game.Server.loadPacketIDs`, on the `id` fields `ids` and the cache `cache`:
   * for each position in turn, look the name up with `valueOf`, set that constant's `id` to
   * the position and cache the constant under it. A name that is not a constant stops the
   * loop with what the positions before it stored.
   */
  method AssignIdsLoop<T>(constants: set<T>, ids: map<T, int>, cache: map<int, T>, enumConstants: seq<T>)
    returns (ids': map<T, int>, cache': map<int, T>, r: Result<(), LookupError>)
    ensures var k := FirstInvalid(enumConstants, constants);
      && (r.Success? <==> k == |enumConstants|)
      && ids' == AssignIds(ids, enumConstants[..k])
      && cache' == CacheIds(cache, enumConstants[..k])
  {
    ghost var k := FirstInvalid(enumConstants, constants);
    ids', cache' := ids, cache;
    for id := 0 to |enumConstants|
      invariant id <= k
      invariant ids' == AssignIds(ids, enumConstants[..id])
      invariant cache' == CacheIds(cache, enumConstants[..id])
    {
      var value := ValueOf(constants, enumConstants[id]);
      if value.Failure? {
        return ids', cache', Failure(value.error);
      }
      assert enumConstants[..id + 1][..id] == enumConstants[..id];
      ids' := ids'[value.value := id];
      cache' := cache'[id := value.value];
    }
    assert k == |enumConstants|;
    r := Success(());
  }

  /** The static state of `Game.Server`: each constant's `id` field and `PACKET_ID_CACHE`. */
  class GameServerRegistry {
    /** The names of the `Game.Server` constants, which `valueOf` accepts. */
    const constants: set<string>
    /** The `id` field of each constant that was ever assigned one; the others hold -1. */
    var ids: map<string, int>
    /** `PACKET_ID_CACHE`: packet id to token. */
    var packetIdCache: map<int, string>

    /** The state after class initialisation: every `id` is -1, the cache is empty. */
    constructor ()
      ensures ids == map[] && packetIdCache == map[] && constants == GAME_SERVER_NAMES
    {
      constants := GAME_SERVER_NAMES;
      ids := map[];
      packetIdCache := map[];
    }

    /** `token.getID()`. */
    function GetID(token: string): (id: int)
      reads this
      ensures token !in ids ==> id == -1
    {
      if token in ids then ids[token] else -1
    }

    /** `getById(packetID)`. */
    function GetById(packetID: int): (t: Option<string>)
      reads this
      ensures t.Some? <==> packetID in packetIdCache
      ensures t.Some? ==> t.value == packetIdCache[packetID]
    {
      if packetID in packetIdCache then Some(packetIdCache[packetID]) else None
    }

    /**
     * `loadPacketIDs(enumConstants)`: for each position in turn, set that constant's `id` to
     * the position and cache it under that id. A name that is not a `Game.Server` constant
     * throws from `valueOf`, keeping what the positions before it already stored.
     */
    method LoadPacketIDs(enumConstants: seq<string>) returns (r: Result<(), LookupError>)
      modifies this
      ensures var k := FirstInvalid(enumConstants, constants);
        && (r.Success? <==> k == |enumConstants|)
        && ids == old(ids) + PositionMap(enumConstants[..k])
        && packetIdCache == old(packetIdCache) + IdTable(enumConstants[..k])
    {
      var newIds, newCache;
      newIds, newCache, r := AssignIdsLoop(constants, ids, packetIdCache, enumConstants);
      AssignedIsTable(ids, packetIdCache, enumConstants[..FirstInvalid(enumConstants, constants)]);
      ids, packetIdCache := newIds, newCache;
    }

    /**
     * Once a list of distinct names is loaded, each listed constant's `getID()` is its
     * position and `getById` of that position gives the constant back; a constant the list
     * does not name keeps the `id` it had (-1 if it never had one).
     */
    lemma LoadedIdsAgree(names: seq<string>, idsBefore: map<string, int>, cacheBefore: map<int, string>,
                         i: nat, unlisted: string)
      requires Distinct(names) && i < |names|
      requires ids == idsBefore + PositionMap(names) && packetIdCache == cacheBefore + IdTable(names)
      ensures GetID(names[i]) == i && GetById(i) == Some(names[i])
      ensures unlisted !in names ==> GetID(unlisted) == if unlisted in idsBefore then idsBefore[unlisted] else -1
    {
      PositionMapComplete(names);
      var k := PositionMap(names)[names[i]];
      assert names[k] == names[i];
    }

    /**
     * `load`: the if-else chain over `isOlderThan` picks one declaration list, the one below
     * the first bound the server version is older than, and loads it.
     */
    method Load(version: ServerVersion, declarations: ClientboundList -> seq<string>) returns (r: Result<(), LookupError>)
      modifies this
      ensures var names := declarations(SERVER_LISTS[FloorIndex(version)]);
        var k := FirstInvalid(names, constants);
        && (r.Success? <==> k == |names|)
        && ids == old(ids) + PositionMap(names[..k])
        && packetIdCache == old(packetIdCache) + IdTable(names[..k])
    {
      var list: ClientboundList;
      if IsOlderThan(version, SERVER_1_8) {
        list := CLIENTBOUND_1_7_10;
      } else if IsOlderThan(version, SERVER_1_9) {
        list := CLIENTBOUND_1_8;
      } else if IsOlderThan(version, SERVER_1_9_4) {
        list := CLIENTBOUND_1_9;
      } else if IsOlderThan(version, SERVER_1_12) {
        list := CLIENTBOUND_1_9_3;
      } else if IsOlderThan(version, SERVER_1_12_1) {
        list := CLIENTBOUND_1_12;
      } else if IsOlderThan(version, SERVER_1_13) {
        list := CLIENTBOUND_1_12_1;
      } else if IsOlderThan(version, SERVER_1_14) {
        list := CLIENTBOUND_1_13;
      } else if IsOlderThan(version, SERVER_1_14_4) {
        list := CLIENTBOUND_1_14;
      } else if IsOlderThan(version, SERVER_1_15) {
        list := CLIENTBOUND_1_14_4;
      } else if IsOlderThan(version, SERVER_1_15_2) {
        list := CLIENTBOUND_1_15;
      } else if IsOlderThan(version, SERVER_1_16) {
        list := CLIENTBOUND_1_15_2;
      } else if IsOlderThan(version, SERVER_1_16_2) {
        list := CLIENTBOUND_1_16;
      } else if IsOlderThan(version, SERVER_1_17) {
        list := CLIENTBOUND_1_16_2;
      } else {
        list := CLIENTBOUND_1_17;
      }
      assert list == SERVER_LISTS[FloorIndex(version)];
      r := LoadPacketIDs(declarations(list));
    }
  }

  // ---- Dispatch over phase and direction -------------------------------------------------

  /** `PacketTypeCommon`: a token of any phase and direction. */
  datatype PacketTypeCommon =
    | HandshakingClientType(handshakingClient: HandshakingClient)
    | StatusClientType(statusClient: StatusClient)
    | StatusServerType(statusServer: StatusServer)
    | LoginClientType(loginClient: LoginClient)
    | LoginServerType(loginServer: LoginServer)
    | GameClientType(gameClient: string)
    | GameServerType(gameServer: string)
  {
    /** The phase the token belongs to. */
    function State(): ConnectionState {
      match this
      case HandshakingClientType(_) => HANDSHAKING
      case StatusClientType(_) | StatusServerType(_) => STATUS
      case LoginClientType(_) | LoginServerType(_) => LOGIN
      case GameClientType(_) | GameServerType(_) => GAME
    }

    /** The side that sends it: CLIENT for the `Client` enums, SERVER for the `Server` ones. */
    function Side(): PacketSide {
      match this
      case HandshakingClientType(_) | StatusClientType(_) | LoginClientType(_) | GameClientType(_) => CLIENT
      case StatusServerType(_) | LoginServerType(_) | GameServerType(_) => SERVER
    }

    /** `getID()` of a token of a fixed-id phase. */
    function GetID(): int
      requires State() != GAME
    {
      match this
      case HandshakingClientType(t) => t.GetID()
      case StatusClientType(t) => t.GetID()
      case StatusServerType(t) => t.GetID()
      case LoginClientType(t) => t.GetID()
      case LoginServerType(t) => t.GetID()
    }
  }

  /** Whether the fixed-id phase `state`, in direction `side`, declares a token with id `packetID`. */
  predicate FixedIdDeclared(side: PacketSide, state: ConnectionState, packetID: int)
    requires state != GAME
  {
    match state
    case HANDSHAKING => packetID == 0 || packetID == 254
    case STATUS => 0 <= packetID <= 1
    case LOGIN => 0 <= packetID <= (if side == CLIENT then 2 else 4)
  }

  /** The `getById` of the fixed-id phase `state` and direction `side`. */
  function FixedById(side: PacketSide, state: ConnectionState, packetID: int): (t: Option<PacketTypeCommon>)
    requires state != GAME
    ensures t.Some? <==> FixedIdDeclared(side, state, packetID)
    ensures t.Some? ==> t.value.State() == state && t.value.GetID() == packetID
    ensures t.Some? ==> t.value.Side() == if state == HANDSHAKING then CLIENT else side
  {
    match state
    case HANDSHAKING =>
      (match HandshakingClientById(packetID) case Some(c) => Some(HandshakingClientType(c)) case None => None)
    case STATUS =>
      (match side
       case CLIENT =>
         (match StatusClientById(packetID) case Some(c) => Some(StatusClientType(c)) case None => None)
       case SERVER =>
         (match StatusServerById(packetID) case Some(c) => Some(StatusServerType(c)) case None => None))
    case LOGIN =>
      (match side
       case CLIENT =>
         (match LoginClientById(packetID) case Some(c) => Some(LoginClientType(c)) case None => None)
       case SERVER =>
         (match LoginServerById(packetID) case Some(c) => Some(LoginServerType(c)) case None => None))
  }

  /**
   * `PacketType.getById(side, state, version, packetID)`: a token of the requested phase, and
   * of the requested side except in HANDSHAKING, which only has client tokens. In a fixed
   * phase it is the token whose id is `packetID`; in GAME, the token cached under `packetID`
   * (for a client, in the table of `version`).
   */
  function GetById(side: PacketSide, state: ConnectionState, version: Option<ClientVersion>, packetID: int,
                   clients: GameClientRegistry, servers: GameServerRegistry): (t: Option<PacketTypeCommon>)
    reads clients, servers
    requires clients.Valid()
    ensures state != GAME ==> (t.Some? <==> FixedIdDeclared(side, state, packetID))
    ensures state == GAME && side == CLIENT ==>
      (t.Some? <==> version.Some? && version.value in clients.lists && 0 <= packetID < |clients.lists[version.value]|)
    ensures state == GAME && side == SERVER ==> (t.Some? <==> packetID in servers.packetIdCache)
    ensures t.Some? ==> t.value.State() == state
    ensures t.Some? ==> t.value.Side() == if state == HANDSHAKING then CLIENT else side
    ensures t.Some? && state != GAME ==> t.value.GetID() == packetID
    ensures t.Some? && state == GAME && side == CLIENT ==>
      version.Some? && version.value in clients.lists && 0 <= packetID < |clients.lists[version.value]|
      && t.value.gameClient == clients.lists[version.value][packetID]
    ensures t.Some? && state == GAME && side == SERVER ==>
      packetID in servers.packetIdCache && t.value.gameServer == servers.packetIdCache[packetID]
  {
    if state != GAME then FixedById(side, state, packetID)
    else
      match side
      case CLIENT =>
        (match clients.GetById(version, packetID) case Some(n) => Some(GameClientType(n)) case None => None)
      case SERVER =>
        (match servers.GetById(packetID) case Some(n) => Some(GameServerType(n)) case None => None)
  }

  /** In HANDSHAKING the side is not consulted. */
  lemma HandshakingIgnoresSide(version: Option<ClientVersion>, packetID: int,
                               clients: GameClientRegistry, servers: GameServerRegistry)
    requires clients.Valid()
    ensures GetById(CLIENT, HANDSHAKING, version, packetID, clients, servers)
         == GetById(SERVER, HANDSHAKING, version, packetID, clients, servers)
  {
  }
}
