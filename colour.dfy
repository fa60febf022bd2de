/** The colour sendLocalizedMessage gives a message, decided by its key alone. */
module Colours {
  import opened JavaText

  datatype Colour = Red | Green | Aqua | Yellow | Gold

  /** The condition of the first branch: errors, warnings, refusals and every AI message. */
  predicate RedKey(key: string)
  {
    StartsWith(key, "bad_") || EndsWith(key, "_error") || EndsWith(key, "_warning")
    || key == "cmd_blocked" || key == "mod_cmd_cannot_be_blocked" || key == "mod_cmd_cannot_be_unblocked"
    || key == "no_player" || StartsWith(key, "ai_")
  }

  predicate GreenKey(key: string)
  {
    EndsWith(key, "_success") || key == "cmd_unblocked_success" || key == "all_cmds_unblocked"
  }

  predicate AquaKey(key: string)
  {
    EndsWith(key, "_message") || key == "restarting_cycm_message" || key == "mod_off_no_player_auto_start"
    || key == "no_blocked_cmds" || key == "blocked_cmds_header"
  }

  predicate YellowKey(key: string)
  {
    EndsWith(key, "already_blocked") || EndsWith(key, "already_state") || key == "cmd_not_blocked"
  }

  /** The first branch whose condition holds decides; Gold when none does. The equality tests
      against "cmd_unblocked_success" and "restarting_cycm_message" are already covered by the
      suffix tests before them, so the contract leaves them out. */
  function KeyColour(key: string): (r: Colour)
    ensures r == Red <==> RedKey(key)
    ensures r == Green <==> !RedKey(key) && (EndsWith(key, "_success") || key == "all_cmds_unblocked")
    ensures r == Aqua <==> (!RedKey(key) && !GreenKey(key) &&
      (EndsWith(key, "_message") || key == "mod_off_no_player_auto_start" || key == "no_blocked_cmds" || key == "blocked_cmds_header"))
    ensures r == Yellow <==> !RedKey(key) && !GreenKey(key) && !AquaKey(key) && YellowKey(key)
  {
    assert EndsWith("cmd_unblocked_success", "_success") by {
      assert "cmd_unblocked_success"[13..] == "_success";
    }
    assert EndsWith("restarting_cycm_message", "_message") by {
      assert "restarting_cycm_message"[15..] == "_message";
    }
    if RedKey(key) then Red
    else if GreenKey(key) then Green
    else if AquaKey(key) then Aqua
    else if YellowKey(key) then Yellow
    else Gold
  }

  /** A prefix test fails as soon as one character of the prefix differs. */
  lemma CharRefutesPrefix(s: string, p: string, i: nat)
    requires i < |p| && (i >= |s| || s[i] != p[i])
    ensures !StartsWith(s, p)
  {
  }

  /** Every AI message is drawn in red, whatever its suffix: the "ai_" test comes first. */
  lemma AiMessagesRed(key: string)
    requires StartsWith(key, "ai_")
    ensures KeyColour(key) == Red
  {
  }

  /** So the ordinary reply and the progress notices of the AI bridge are red like its errors. */
  lemma AiNoticesRed()
    ensures KeyColour("ai_response") == Red
    ensures KeyColour("ai_generating_response") == Red
    ensures KeyColour("ai_executing_command") == Red
  {
    AiMessagesRed("ai_response");
    AiMessagesRed("ai_generating_response");
    AiMessagesRed("ai_executing_command");
  }

  /** The refusals to block or unblock one of the mod's own commands, and the missing player, are
      red. */
  lemma ProtectedRefusalsRed()
    ensures KeyColour("mod_cmd_cannot_be_blocked") == Red
    ensures KeyColour("mod_cmd_cannot_be_unblocked") == Red
    ensures KeyColour("no_player") == Red
  {
  }

  /** The block and unblock replies: the refusal "cmd_blocked" is red but its confirmation
      "cmd_blocked_success" green, as are the unblock confirmations. */
  lemma BlockRepliesColours()
    ensures KeyColour("cmd_blocked") == Red
    ensures KeyColour("cmd_blocked_success") == Green
    ensures KeyColour("cmd_unblocked_success") == Green
    ensures KeyColour("all_cmds_unblocked") == Green
  {
    CmdBlockedColour();
    CmdBlockedSuccessColour();
    CmdUnblockedSuccessColour();
    AllCmdsUnblockedColour();
  }

  /** The notices that a command or the mod is already in the state asked for are yellow. */
  lemma AlreadyNoticesYellow()
    ensures KeyColour("cmd_already_blocked") == Yellow
    ensures KeyColour("cmd_not_blocked") == Yellow
    ensures KeyColour("mod_already_state") == Yellow
  {
    CmdAlreadyBlockedColour();
    CmdNotBlockedColour();
    ModAlreadyStateColour();
  }

  /** The refusals of a malformed modifier or line are red: their keys start with "bad_" or end
      with "_warning". */
  lemma MalformedRefusalsRed()
    ensures KeyColour("bad_repeats") == Red
    ensures KeyColour("bad_delay") == Red
    ensures KeyColour("bad_cmd_format") == Red
    ensures KeyColour("bad_chat_format") == Red
    ensures KeyColour("num_repeats_positive_warning") == Red
    ensures KeyColour("delay_positive_warning") == Red
  {
    BadRepeatsColour();
    BadDelayColour();
    BadCmdFormatColour();
    BadChatFormatColour();
    NumRepeatsPositiveWarningColour();
    DelayPositiveWarningColour();
  }

  /** But not every refusal is red: a number over its limit and a command without its slash fall
      through every test and are gold. */
  lemma LimitRefusalsGold()
    ensures KeyColour("repeats_exceed_max") == Gold
    ensures KeyColour("delay_exceed_max") == Gold
    ensures KeyColour("cmd_must_start_with_slash") == Gold
  {
    RepeatsExceedMaxColour();
    DelayExceedMaxColour();
    CmdMustStartWithSlashColour();
  }

  /** The confirmations of the settings commands are green; the on/off confirmation is gold. */
  lemma SettingsRepliesColours()
    ensures KeyColour("repeats_set_success") == Green
    ensures KeyColour("delay_set_success") == Green
    ensures KeyColour("mod_state") == Gold
  {
    RepeatsSetSuccessColour();
    DelaySetSuccessColour();
    ModStateColour();
  }

  // One key at a time: each literal key is settled in a proof of its own.

  lemma CmdBlockedColour()
    ensures KeyColour("cmd_blocked") == Red
  {
    CharRefutesPrefix("cmd_blocked", "bad_", 0);
    CharRefutesPrefix("cmd_blocked", "ai_", 0);
  }

  lemma CmdBlockedSuccessColour()
    ensures KeyColour("cmd_blocked_success") == Green
  {
    CharRefutesPrefix("cmd_blocked_success", "bad_", 0);
    CharRefutesPrefix("cmd_blocked_success", "ai_", 0);
    assert "cmd_blocked_success"[11..] == "_success";
  }

  lemma CmdUnblockedSuccessColour()
    ensures KeyColour("cmd_unblocked_success") == Green
  {
    CharRefutesPrefix("cmd_unblocked_success", "bad_", 0);
    CharRefutesPrefix("cmd_unblocked_success", "ai_", 0);
    assert "cmd_unblocked_success"[13..] == "_success";
  }

  lemma AllCmdsUnblockedColour()
    ensures KeyColour("all_cmds_unblocked") == Green
  {
    CharRefutesPrefix("all_cmds_unblocked", "bad_", 0);
    CharRefutesPrefix("all_cmds_unblocked", "ai_", 1);
  }

  lemma CmdAlreadyBlockedColour()
    ensures KeyColour("cmd_already_blocked") == Yellow
  {
    CharRefutesPrefix("cmd_already_blocked", "bad_", 0);
    CharRefutesPrefix("cmd_already_blocked", "ai_", 0);
    assert "cmd_already_blocked"[4..] == "already_blocked";
  }

  lemma CmdNotBlockedColour()
    ensures KeyColour("cmd_not_blocked") == Yellow
  {
    CharRefutesPrefix("cmd_not_blocked", "bad_", 0);
    CharRefutesPrefix("cmd_not_blocked", "ai_", 0);
  }

  lemma ModAlreadyStateColour()
    ensures KeyColour("mod_already_state") == Yellow
  {
    CharRefutesPrefix("mod_already_state", "bad_", 0);
    CharRefutesPrefix("mod_already_state", "ai_", 0);
    assert "mod_already_state"[4..] == "already_state";
  }

  lemma BadRepeatsColour()
    ensures KeyColour("bad_repeats") == Red
  {
  }

  lemma BadDelayColour()
    ensures KeyColour("bad_delay") == Red
  {
  }

  lemma BadCmdFormatColour()
    ensures KeyColour("bad_cmd_format") == Red
  {
  }

  lemma BadChatFormatColour()
    ensures KeyColour("bad_chat_format") == Red
  {
  }

  lemma NumRepeatsPositiveWarningColour()
    ensures KeyColour("num_repeats_positive_warning") == Red
  {
    CharRefutesPrefix("num_repeats_positive_warning", "bad_", 0);
    CharRefutesPrefix("num_repeats_positive_warning", "ai_", 0);
    assert "num_repeats_positive_warning"[20..] == "_warning";
  }

  lemma DelayPositiveWarningColour()
    ensures KeyColour("delay_positive_warning") == Red
  {
    CharRefutesPrefix("delay_positive_warning", "bad_", 0);
    CharRefutesPrefix("delay_positive_warning", "ai_", 0);
    assert "delay_positive_warning"[14..] == "_warning";
  }

  lemma RepeatsExceedMaxColour()
    ensures KeyColour("repeats_exceed_max") == Gold
  {
    CharRefutesPrefix("repeats_exceed_max", "bad_", 0);
    CharRefutesPrefix("repeats_exceed_max", "ai_", 0);
  }

  lemma DelayExceedMaxColour()
    ensures KeyColour("delay_exceed_max") == Gold
  {
    CharRefutesPrefix("delay_exceed_max", "bad_", 0);
    CharRefutesPrefix("delay_exceed_max", "ai_", 0);
  }

  lemma CmdMustStartWithSlashColour()
    ensures KeyColour("cmd_must_start_with_slash") == Gold
  {
    CharRefutesPrefix("cmd_must_start_with_slash", "bad_", 0);
    CharRefutesPrefix("cmd_must_start_with_slash", "ai_", 0);
  }

  lemma RepeatsSetSuccessColour()
    ensures KeyColour("repeats_set_success") == Green
  {
    CharRefutesPrefix("repeats_set_success", "bad_", 0);
    CharRefutesPrefix("repeats_set_success", "ai_", 0);
    assert "repeats_set_success"[11..] == "_success";
  }

  lemma DelaySetSuccessColour()
    ensures KeyColour("delay_set_success") == Green
  {
    CharRefutesPrefix("delay_set_success", "bad_", 0);
    CharRefutesPrefix("delay_set_success", "ai_", 0);
    assert "delay_set_success"[9..] == "_success";
  }

  lemma ModStateColour()
    ensures KeyColour("mod_state") == Gold
  {
    CharRefutesPrefix("mod_state", "bad_", 0);
    CharRefutesPrefix("mod_state", "ai_", 0);
  }
}
