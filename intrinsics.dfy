/**
 * The static tables of intrinsic_mapping.py and the lookups over them.
 * INTRINSIC_MAP (opcode to Lua name, description and argument count),
 * UI_FUNCTION_MAP (decompiled `UI_*` names) and UNKNOWN_FUNCTIONS (opcodes
 * seen in existing scripts but not implemented) are written as lookups by
 * `match`: `IntrinsicEntry(op) == Some(e)` reads "op in INTRINSIC_MAP with
 * value e". Every lookup falls back to a placeholder instead of failing.
 */
module Intrinsics {
  import opened Text

  /** An argument count of INTRINSIC_MAP: every one stored there lies between 0 and 5. */
  type Arity = n: nat | n <= 5

  /** One row of INTRINSIC_MAP: Lua function name, description, argument count. */
  datatype Intrinsic = Intrinsic(name: string, description: string, arity: Arity)

  /** One row of UI_FUNCTION_MAP, whose argument counts go up to 7. */
  datatype UiIntrinsic = UiIntrinsic(name: string, description: string, arity: nat)

  /** INTRINSIC_MAP. */
  function IntrinsicEntry(opcode: nat): Option<Intrinsic>
  {
    match opcode
    // Conversation System
    case 0x0003 => Some(Intrinsic("second_speaker", "Set secondary speaker in conversation", 3))
    case 0x0004 => Some(Intrinsic("hide_npc", "Hide NPC portrait in conversation", 1))
    case 0x0005 => Some(Intrinsic("add_answer", "Add dialogue answer options", 1))
    case 0x0006 => Some(Intrinsic("remove_answer", "Remove dialogue answer options", 1))
    case 0x0007 => Some(Intrinsic("save_answers", "Save current answer state", 0))
    case 0x0008 => Some(Intrinsic("restore_answers", "Restore saved answer state", 0))
    case 0x000A => Some(Intrinsic("get_answer", "Get player's dialogue choice", 0))
    case 0x000B => Some(Intrinsic("ask_yes_no", "Present Yes/No choice", 0))
    case 0x000C => Some(Intrinsic("ask_number", "Ask player for numeric input", 4))
    case 0x0033 => Some(Intrinsic("object_select_modal", "Show object selection dialog", 0))
    // Object Manipulation
    case 0x000D => Some(Intrinsic("set_object_shape", "Set object shape ID", 2))
    case 0x0011 => Some(Intrinsic("get_object_shape", "Get object shape ID", 1))
    case 0x0012 => Some(Intrinsic("get_object_frame", "Get object frame number", 1))
    case 0x0013 => Some(Intrinsic("set_object_frame", "Set object frame number", 2))
    case 0x0014 => Some(Intrinsic("get_object_quality", "Get object quality value", 1))
    case 0x0015 => Some(Intrinsic("set_object_quality", "Set object quality value", 2))
    case 0x0024 => Some(Intrinsic("spawn_object", "Create new object", 1))
    case 0x0025 => Some(Intrinsic("set_last_created", "Mark object as last_created", 1))
    case 0x0026 => Some(Intrinsic("set_object_position", "Set object position", 1))
    // NPC & Character
    case 0x001B => Some(Intrinsic("get_npc_object", "Get NPC object reference", 1))
    case 0x001C => Some(Intrinsic("get_schedule", "Get NPC schedule type", 1))
    case 0x0020 => Some(Intrinsic("get_npc_property", "Get NPC property value", 2))
    case 0x0021 => Some(Intrinsic("set_npc_property", "Set NPC property value", 3))
    case 0x0022 => Some(Intrinsic("get_active_player", "Get avatar/player reference", 0))
    case 0x0027 => Some(Intrinsic("get_player_name", "Get player/NPC name", 1))
    case 0x0031 => Some(Intrinsic("is_npc", "Check if object is an NPC", 1))
    // Party Management
    case 0x0023 => Some(Intrinsic("get_party_members", "Get list of party member names", 0))
    case 0x002F => Some(Intrinsic("npc_id_in_party", "Check if NPC ID is in party", 1))
    case 0x0030 => Some(Intrinsic("add_to_party", "Add NPC to party", 1))
    // Container/Inventory
    case 0x0001 => Some(Intrinsic("add_to_container", "Add item to container", 2))
    case 0x0002 => Some(Intrinsic("remove_from_container", "Remove item from container", 3))
    case 0x002A => Some(Intrinsic("get_container_objects", "Get objects in container", 4))
    case 0x006E => Some(Intrinsic("get_container", "Get container holding object", 1))
    // Position & Movement
    case 0x0018 => Some(Intrinsic("get_object_position", "Get object position", 1))
    case 0x0019 => Some(Intrinsic("get_distance", "Get distance between objects", 2))
    case 0x001A => Some(Intrinsic("get_direction", "Get direction from object to target", 2))
    case 0x0035 => Some(Intrinsic("check_in_range", "Check if object in range", 4))
    case 0x0085 => Some(Intrinsic("is_not_blocked", "Check if position not blocked", 3))
    // World/Time
    case 0x0038 => Some(Intrinsic("get_time_hour", "Get current game hour", 0))
    case 0x0039 => Some(Intrinsic("get_time_minute", "Get current game minute", 0))
    // Audio/Visual
    case 0x002E => Some(Intrinsic("play_music", "Play music track", 2))
    case 0x0040 => Some(Intrinsic("bark", "Display text near object", 2))
    case 0x0051 => Some(Intrinsic("play_sound_effect", "Play sound effect", 1))
    case 0x0054 => Some(Intrinsic("sprite_effect", "Play visual effect", 3))
    // Game State
    case 0x0048 => Some(Intrinsic("close_gumps", "Close all GUI windows", 0))
    case 0x0058 => Some(Intrinsic("is_in_usecode", "Check if in usecode execution", 1))
    case 0x0062 => Some(Intrinsic("get_avatar_ref", "Get avatar object reference", 0))
    case 0x0068 => Some(Intrinsic("detect_mouse", "Check if mouse exists", 0))
    case 0x0079 => Some(Intrinsic("in_usecode", "Mark object as in usecode", 1))
    case 0x0081 => Some(Intrinsic("is_in_gump_mode", "Check if GUI is open", 0))
    case 0x0088 => Some(Intrinsic("check_object_flag", "Check object flag state", 2))
    // Utility
    case 0x0000 => Some(Intrinsic("random", "Get random number", 1))
    case 0x0010 => Some(Intrinsic("random2", "Get random number in range", 2))
    case 0x005E => Some(Intrinsic("array_size", "Get array size", 1))
    case 0x0072 => Some(Intrinsic("execute_usecode_array", "Execute embedded usecode", 4))
    case 0x007D => Some(Intrinsic("add_containerobject_s", "Add multiple items to container", 2))
    case 0x003A => Some(Intrinsic("some_check", "Unknown check function", 1))
    case 0x003B => Some(Intrinsic("another_check", "Unknown check function", 0))
    // Combat/Effects
    case 0x0090 => Some(Intrinsic("hit_object", "Apply damage or hit effect", 1))
    // Searching
    case 0x000E => Some(Intrinsic("find_nearest", "Find nearest object of type", 3))
    case 0x0028 => Some(Intrinsic("count_objects", "Count objects matching criteria", 4))
    case 0x002B => Some(Intrinsic("add_party_items", "Add items to party inventory", 5))
    case 0x002C => Some(Intrinsic("remove_party_items", "Remove items from party", 5))
    // Navigation/Pathfinding
    case 0x0036 => Some(Intrinsic("set_path_failure", "Set path failure handler", 1))
    // Miscellaneous
    case 0x0016 => Some(Intrinsic("set_item_quantity", "Set item quantity", 2))
    case 0x0017 => Some(Intrinsic("create_new_object", "Advanced object creation", 2))
    case 0x0029 => Some(Intrinsic("click_on_item", "Simulate click on item", 1))
    case 0x0037 => Some(Intrinsic("update_last_created", "Update last created object", 1))
    case 0x0041 => Some(Intrinsic("sprite_effect_at_position", "Play sprite effect at position", 3))
    case 0x0042 => Some(Intrinsic("set_timer", "Set timer", 2))
    case 0x0044 => Some(Intrinsic("get_timer", "Get timer value", 1))
    case 0x0047 => Some(Intrinsic("cause_light", "Create light effect", 1))
    case 0x004A => Some(Intrinsic("set_attack_mode", "Set NPC attack mode", 1))
    case 0x004D => Some(Intrinsic("get_barge", "Get barge object", 1))
    case 0x0052 => Some(Intrinsic("sit_down", "Make NPC sit", 1))
    case 0x0065 => Some(Intrinsic("die_roll", "Roll dice", 2))
    case 0x0067 => Some(Intrinsic("earthquake", "Trigger earthquake effect", 1))
    case 0x0069 => Some(Intrinsic("is_water", "Check if position is water", 1))
    case 0x006B => Some(Intrinsic("get_lift", "Get object lift/z-level", 1))
    case 0x006D => Some(Intrinsic("set_lift", "Set object lift/z-level", 2))
    case 0x0074 => Some(Intrinsic("lightning", "Trigger lightning effect", 1))
    case 0x0087 => Some(Intrinsic("flash_mouse", "Flash mouse cursor", 0))
    case 0x008D => Some(Intrinsic("fade_palette", "Fade screen palette", 1))
    case 0x008E => Some(Intrinsic("armageddon", "Trigger armageddon", 0))
    case 0x008F => Some(Intrinsic("resurrection", "Resurrect NPC", 1))
    case 0x0093 => Some(Intrinsic("obj_sprite_effect", "Play sprite effect on object", 2))
    case 0x0096 => Some(Intrinsic("set_orrery", "Set orrery state", 1))
    case _ => None
  }

  /** UI_FUNCTION_MAP; every key starts with the upper-case letter U. */
  function UiFunctionEntry(uiName: string): (r: Option<UiIntrinsic>)
    ensures r.Some? ==> |uiName| > 0 && uiName[0] == 'U'
  {
    match uiName
    case "UI_get_item_flag" => Some(UiIntrinsic("check_object_flag", "Check object flag state", 2))
    case "UI_in_gump_mode" => Some(UiIntrinsic("is_conversation_running", "Check if GUI is open", 0))
    case "UI_close_gumps" => Some(UiIntrinsic("close_gumps", "Close all GUI windows", 0))
    case "UI_find_nearest" => Some(UiIntrinsic("find_nearest", "Find nearest object of type", 3))
    case "UI_get_random" => Some(UiIntrinsic("random", "Get random number", 2))
    case "UI_item_say" => Some(UiIntrinsic("bark", "Make object display text", 2))
    case "UI_get_object_position" => Some(UiIntrinsic("get_object_position", "Get object coordinates", 1))
    case "UI_remove_item" => Some(UiIntrinsic("destroy_object", "Remove object from world", 1))
    case "UI_sprite_effect" => Some(UiIntrinsic("sprite_effect", "Play visual effect", 7))
    case "UI_play_sound_effect" => Some(UiIntrinsic("play_sound_effect", "Play sound", 1))
    case "UI_get_schedule" => Some(UiIntrinsic("get_schedule", "Get NPC schedule", 1))
    case "UI_set_schedule" => Some(UiIntrinsic("set_schedule", "Set NPC schedule", 2))
    case _ => None
  }

  /** UNKNOWN_FUNCTIONS. */
  function UnknownFunctionName(opcode: nat): Option<string>
  {
    match opcode
    case 0x0018 => Some("get_object_position")
    case 0x0035 => Some("check_range_or_position")
    case 0x0044 => Some("unknown_condition_check")
    case 0x006F => Some("unknown_object_manipulation")
    case 0x007E => Some("close_gumps_or_anchors")
    case 0x0081 => Some("is_in_gump_mode")
    case 0x0088 => Some("check_object_flag")
    case 0x008B => Some("unknown_operation")
    case 0x008F => Some("unknown_check")
    case 0x08FF => Some("show_message")
    case 0x0829 => Some("check_gangplank_position")
    case 0x0900 => Some("unknown_getter")
    case 0x0903 => Some("unknown_setter")
    case 0x090C => Some("display_options_wrapper")
    case 0x091B => Some("format_price_string")
    case 0x0910 => Some("get_npc_property_alt")
    case 0x0912 => Some("set_npc_property_alt")
    case _ => None
  }

  /** EVENT_TYPES. */
  const EventTypes: map<nat, string> := map[0 := "bark", 1 := "doubleclick", 2 := "use", 3 := "egg", 4 := "spell", 7 := "special"]

  /** The name get_lua_function synthesises for an opcode INTRINSIC_MAP does not know. */
  function Placeholder(opcode: nat): (r: string)
    ensures HasPrefix(r, "unknown_") && r[|r| - 1] == 'H'
    ensures |r| == 9 + Max(4, |HexDigits(opcode)|)
  {
    "unknown_" + Hex4(opcode) + "H"
  }

  /** get_lua_function: the mapped Lua name, or the placeholder for an unmapped opcode. */
  function GetLuaFunction(opcode: nat): (r: string)
    ensures IntrinsicEntry(opcode).Some? ==> r == IntrinsicEntry(opcode).value.name
    ensures IntrinsicEntry(opcode).None? ==> r == Placeholder(opcode)
  {
    match IntrinsicEntry(opcode)
    case Some(e) => e.name
    case None => Placeholder(opcode)
  }

  /** get_param_count: the mapped argument count, None exactly for an unmapped opcode. */
  function GetParamCount(opcode: nat): (r: Option<nat>)
    ensures r.None? <==> IntrinsicEntry(opcode).None?
    ensures r.Some? ==> r.value == IntrinsicEntry(opcode).value.arity && r.value <= 5
  {
    match IntrinsicEntry(opcode)
    case Some(e) => Some(e.arity)
    case None => None
  }

  /**
   * get_param_count has no count exactly for the opcodes get_lua_function
   * answers with its placeholder; otherwise both read the same table row.
   */
  lemma ParamCountMatchesLuaFunction(opcode: nat)
    ensures GetParamCount(opcode).None? ==> GetLuaFunction(opcode) == Placeholder(opcode)
    ensures GetParamCount(opcode).Some? ==>
      IntrinsicEntry(opcode) == Some(Intrinsic(GetLuaFunction(opcode), GetFunctionDescription(opcode), GetParamCount(opcode).value))
  {
  }

  /**
   * get_function_description: INTRINSIC_MAP's description first, then the
   * UNKNOWN_FUNCTIONS name, then the fixed text 'Unknown function'.
   */
  function GetFunctionDescription(opcode: nat): (r: string)
    ensures IntrinsicEntry(opcode).Some? ==> r == IntrinsicEntry(opcode).value.description
    ensures IntrinsicEntry(opcode).None? && UnknownFunctionName(opcode).Some? ==> r == UnknownFunctionName(opcode).value
    ensures IntrinsicEntry(opcode).None? && UnknownFunctionName(opcode).None? ==> r == "Unknown function"
  {
    match IntrinsicEntry(opcode)
    case Some(e) => e.description
    case None =>
      match UnknownFunctionName(opcode)
      case Some(n) => n
      case None => "Unknown function"
  }

  /** 0x0018 is in both tables, and INTRINSIC_MAP's description wins. */
  lemma DescriptionPrefersIntrinsicMap()
    ensures IntrinsicEntry(0x0018).Some? && UnknownFunctionName(0x0018).Some?
    ensures GetFunctionDescription(0x0018) == "Get object position"
    ensures GetFunctionDescription(0x0018) != UnknownFunctionName(0x0018).value
  {
    assert "Get object position"[0] != "get_object_position"[0];
  }

  /**
   * translate_ui_function: the mapped name for a key of UI_FUNCTION_MAP;
   * otherwise the name with every `UI_` removed, lower-cased, so that the
   * fallback result has no upper-case letter.
   */
  function TranslateUiFunction(uiName: string): (r: string)
    ensures UiFunctionEntry(uiName).Some? ==> r == UiFunctionEntry(uiName).value.name
    ensures UiFunctionEntry(uiName).None? ==> r == ToLower(RemoveAll(uiName, "UI_"))
    ensures UiFunctionEntry(uiName).None? ==> |r| <= |uiName| && forall i :: 0 <= i < |r| ==> !IsAsciiUpper(r[i])
  {
    match UiFunctionEntry(uiName)
    case Some(e) => e.name
    case None => ToLower(RemoveAll(uiName, "UI_"))
  }

  /** A name produced by the fallback translates to itself: the fallback is idempotent. */
  lemma {:induction false} TranslateUiFallbackIdempotent(uiName: string)
    requires UiFunctionEntry(uiName).None?
    ensures TranslateUiFunction(TranslateUiFunction(uiName)) == TranslateUiFunction(uiName)
  {
    var r := TranslateUiFunction(uiName);
    assert UiFunctionEntry(r).None? by {
      if |r| > 0 {
        assert !IsAsciiUpper(r[0]);
      }
    }
    assert forall i :: 0 <= i < |r| ==> r[i] != 'U';
    forall i: nat | i < |r| ensures !ContainsAt(r, "UI_", i) {
      assert "UI_"[0] == 'U' && r[i + 0] != 'U';
    }
    RemoveAllAbsent(r, "UI_");
    assert ToLower(r) == r;
  }

  /** The event ids in the order `sorted(EVENT_TYPES.items())` visits them. */
  function EventIdsAscending(): (r: seq<nat>)
    ensures forall k :: 0 <= k < |r| ==> r[k] in EventTypes
  {
    [0, 1, 2, 3, 4, 7]
  }

  /**
   * The list is the sorted order of EVENT_TYPES' ids: every strictly
   * ascending list of exactly those ids is this one.
   */
  lemma EventIdsSorted(r: seq<nat>)
    requires forall i, j :: 0 <= i < j < |r| ==> r[i] < r[j]
    requires forall k :: k in r <==> k in EventTypes
    ensures r == EventIdsAscending()
  {
    var ids := EventIdsAscending();
    assert forall k :: k in ids <==> k in EventTypes;
    AscendingUnique(r, ids);
  }
}
