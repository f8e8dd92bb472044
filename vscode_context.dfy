/**
 * src/VSCodeContext.ts: the extension's shared state. It holds the merged
 * configuration and the one remote-control session slot, reacts to the
 * session's events, and formats chat lines for the terminal. Each
 * `new grc.RemoteControl(...)` gets a fresh session number, so that a
 * session's identity (`===` in the source) is a number here. Calls into the
 * session, the terminal and the explorer view are appended to `effects`.
 */
module VSCodeContext {
  import opened Wrappers
  import opened JsString
  import opened Effects

  /** `VSConfiguration`: the list-server login and the local save directory. */
  datatype Config = Config(
    host: string,
    port: nat,
    account: string,
    password: string,
    nickname: string,
    saveDir: string)

  /** `Partial<VSConfiguration>`: an absent field is None. */
  datatype PartialConfig = PartialConfig(
    host: Option<string>,
    port: Option<nat>,
    account: Option<string>,
    password: Option<string>,
    nickname: Option<string>,
    saveDir: Option<string>)

  const DefaultConfig: Config := Config("listserver.graal.in", 14922, "", "", "unknown", "")

  /** `{ ...defaultConfig, ...config }`: each supplied field wins over the default. */
  function MergeConfig(p: PartialConfig): (c: Config)
    ensures p.host.Some? ==> c.host == p.host.value
    ensures p.host.None? ==> c.host == DefaultConfig.host
    ensures p.port.Some? ==> c.port == p.port.value
    ensures p.port.None? ==> c.port == DefaultConfig.port
    ensures p.account.Some? ==> c.account == p.account.value
    ensures p.account.None? ==> c.account == DefaultConfig.account
    ensures p.password.Some? ==> c.password == p.password.value
    ensures p.password.None? ==> c.password == DefaultConfig.password
    ensures p.nickname.Some? ==> c.nickname == p.nickname.value
    ensures p.nickname.None? ==> c.nickname == DefaultConfig.nickname
    ensures p.saveDir.Some? ==> c.saveDir == p.saveDir.value
    ensures p.saveDir.None? ==> c.saveDir == DefaultConfig.saveDir
  {
    Config(
      p.host.GetOr(DefaultConfig.host),
      p.port.GetOr(DefaultConfig.port),
      p.account.GetOr(DefaultConfig.account),
      p.password.GetOr(DefaultConfig.password),
      p.nickname.GetOr(DefaultConfig.nickname),
      p.saveDir.GetOr(DefaultConfig.saveDir))
  }

  /** Supplying nothing gives the defaults; supplying everything ignores them. */
  lemma MergeConfigExtremes(c: Config)
    ensures MergeConfig(PartialConfig(None, None, None, None, None, None)) == DefaultConfig
    ensures MergeConfig(PartialConfig(Some(c.host), Some(c.port), Some(c.account),
      Some(c.password), Some(c.nickname), Some(c.saveDir))) == c
  {
  }

  /** A `grc.RemoteControl` instance: its session number and its server. */
  datatype RcSession = RcSession(id: nat, server: ServerEntry)

  /** The disconnect call made on the session in the slot, if any. */
  function DisconnectCall(slot: Option<RcSession>): (r: seq<Action>)
    ensures slot.None? <==> r == []
    ensures slot.Some? ==> r == [DisconnectSession(slot.value.id)]
  {
    if slot.Some? then [DisconnectSession(slot.value.id)] else []
  }

  /** `getServerNameLabel`: the explorer title for the session slot. */
  function ServerNameLabel(slot: Option<RcSession>): (r: string)
    ensures slot.None? ==> r == "RC (Disconnected)"
    ensures slot.Some? ==> r == "RC (Connected to " + slot.value.server.name + ")"
  {
    var serverName := if slot.Some? then "Connected to " + slot.value.server.name else "Disconnected";
    "RC (" + serverName + ")"
  }

  /** The fifth character tells the two forms apart; the server name sits before the closing parenthesis. */
  lemma LabelShape(slot: Option<RcSession>)
    ensures var r := ServerNameLabel(slot);
      && |r| >= 5 && r[4] == (if slot.Some? then 'C' else 'D')
      && (slot.Some? ==> |r| >= 18 && r[17..|r| - 1] == slot.value.server.name)
  {
  }

  /** The label tells a disconnected slot from every connected one, and names the server. */
  lemma LabelIdentifiesServer(a: Option<RcSession>, b: Option<RcSession>)
    requires ServerNameLabel(a) == ServerNameLabel(b)
    ensures a.Some? <==> b.Some?
    ensures a.Some? ==> a.value.server.name == b.value.server.name
  {
    LabelShape(a);
    LabelShape(b);
  }

  /** The local time of day, as `Date.getHours`, `getMinutes` and `getSeconds` return it. */
  datatype Clock = Clock(hours: nat, minutes: nat, seconds: nat)

  predicate ValidClock(t: Clock) {
    t.hours < 24 && t.minutes < 60 && t.seconds < 60
  }

  /** A two-digit number's decimal string is its tens digit and its units digit. */
  lemma DecimalTwo(n: nat)
    requires 10 <= n < 100
    ensures DecimalString(n) == [DigitChar(n / 10), DigitChar(n % 10)]
  {
    assert DecimalString(n / 10) == [DigitChar(n / 10)];
  }

  /** A clock field as two decimal digits. */
  function TwoDigits(n: nat): (r: string)
    requires n < 100
    ensures |r| == 2
  {
    [DigitChar(n / 10), DigitChar(n % 10)]
  }

  /** `n.toString().padStart(2, '0')` is exactly the two digits of a clock field. */
  lemma TwoDigitsIsPadded(n: nat)
    requires n < 100
    ensures PadStart(DecimalString(n), 2, '0') == TwoDigits(n)
  {
    if n >= 10 {
      DecimalTwo(n);
    } else {
      assert DecimalString(n) == [DigitChar(n)];
      assert PadStart(DecimalString(n), 2, '0') == PadStart(['0', DigitChar(n)], 2, '0');
    }
  }

  function DigitValue(c: char): int {
    c as int - '0' as int
  }

  /** The two digits read back as a number give the number. */
  lemma TwoDigitsValue(n: nat)
    requires n < 100
    ensures 10 * DigitValue(TwoDigits(n)[0]) + DigitValue(TwoDigits(n)[1]) == n
  {
  }

  /** The `[HH:MM:SS]` stamp. */
  function Timestamp(t: Clock): (r: string)
    requires ValidClock(t)
    ensures |r| == 10
    ensures r[0] == '[' && r[3] == ':' && r[6] == ':' && r[9] == ']'
    ensures r[1..3] == TwoDigits(t.hours) && r[4..6] == TwoDigits(t.minutes)
    ensures r[7..9] == TwoDigits(t.seconds)
  {
    var h := TwoDigits(t.hours);
    var m := TwoDigits(t.minutes);
    var sec := TwoDigits(t.seconds);
    assert |h| == 2 && |m| == 2 && |sec| == 2;
    ['[', h[0], h[1], ':', m[0], m[1], ':', sec[0], sec[1], ']']
  }

  /**
   * The line `onRCChat` and `onNCChat` write: the text itself when the
   * `graalRC.enableTimestamp` setting is exactly false, and otherwise the
   * text after the time stamp and a space.
   */
  function ChatLine(text: string, enableTimestamp: Option<bool>, t: Clock): (r: string)
    requires ValidClock(t)
    ensures enableTimestamp == Some(false) ==> r == text
    ensures enableTimestamp != Some(false) ==>
      |r| == |text| + 11 && r[..10] == Timestamp(t) && r[10] == ' ' && r[11..] == text
  {
    if enableTimestamp == Some(false) then text
    else Timestamp(t) + [' '] + text
  }

  /**
   * The nickname `onRCConnected` sets: the `graalRC.login.Nickname` setting,
   * or else the `graalRC.login.Account` setting, or else the empty string; an
   * empty setting counts as missing.
   */
  function LoginNickname(nickname: Option<string>, account: Option<string>): (r: string)
    ensures nickname.Some? && nickname.value != "" ==> r == nickname.value
    ensures (nickname.None? || nickname.value == "") && account.Some? ==> r == account.value
    ensures r == "" <==>
      (nickname.None? || nickname.value == "") && (account.None? || account.value == "")
  {
    if nickname.Some? && nickname.value != "" then nickname.value
    else if account.Some? then account.value
    else ""
  }

  /**
   * The line `onRCConnected` writes; the template literal prints an empty
   * slot's server name as `undefined`.
   */
  function ConnectedLine(slot: Option<RcSession>): (r: string)
    ensures StartsWith(r, "RC Connected / Authenticated to ")
    ensures slot.Some? ==> r[32..] == slot.value.server.name
    ensures slot.None? ==> r[32..] == "undefined"
  {
    "RC Connected / Authenticated to " + (if slot.Some? then slot.value.server.name else "undefined")
  }

  class VSCodeContextState {
    const config: Config
    /** `rcInstance`: the session slot. */
    var rcInstance: Option<RcSession>
    /** The number the next session gets. */
    var nextSession: nat
    /** Calls made into sessions, the terminal and the explorer view, oldest first. */
    var effects: seq<Action>

    /** Every session ever created has a number below `nextSession`. */
    predicate Valid()
      reads this
    {
      rcInstance.Some? ==> rcInstance.value.id < nextSession
    }

    constructor(p: PartialConfig)
      ensures Valid()
      ensures config == MergeConfig(p) && rcInstance == None && effects == []
    {
      config := MergeConfig(p);
      rcInstance := None;
      nextSession := 0;
      effects := [];
    }

    /**
     * `connectRemoteControl`: start the terminal, disconnect the session in
     * the slot if there is one, and put a new session for `server` in it.
     */
    method ConnectRemoteControl(server: ServerEntry)
      requires Valid()
      modifies this
      ensures Valid()
      ensures rcInstance == Some(RcSession(old(nextSession), server))
      ensures old(rcInstance).Some? ==> old(rcInstance).value.id != rcInstance.value.id
      ensures effects == old(effects) + [TerminalStart] + DisconnectCall(old(rcInstance))
        + [OpenSession(old(nextSession), server)]
    {
      effects := effects + [TerminalStart];
      if rcInstance.Some? {
        effects := effects + [DisconnectSession(rcInstance.value.id)];
      }
      var session := RcSession(nextSession, server);
      effects := effects + [OpenSession(session.id, server)];
      nextSession := nextSession + 1;
      rcInstance := Some(session);
    }

    /** `disconnectRemoteControl`: disconnect and empty the slot; nothing happens when it is empty. */
    method DisconnectRemoteControl()
      requires Valid()
      modifies this
      ensures Valid()
      ensures rcInstance == None && nextSession == old(nextSession)
      ensures effects == old(effects) + DisconnectCall(old(rcInstance))
    {
      if rcInstance.Some? {
        effects := effects + [DisconnectSession(rcInstance.value.id)];
        rcInstance := None;
      }
    }

    /** `onRCChat`: write the chat line to the terminal. */
    method OnRCChat(text: string, enableTimestamp: Option<bool>, t: Clock)
      requires ValidClock(t)
      modifies this
      ensures rcInstance == old(rcInstance) && nextSession == old(nextSession)
      ensures effects == old(effects) + [TerminalWrite(ChatLine(text, enableTimestamp, t))]
    {
      effects := effects + [TerminalWrite(ChatLine(text, enableTimestamp, t))];
    }

    /** `onNCChat`: the same as `onRCChat`, for the NPC-server chat. */
    method OnNCChat(text: string, enableTimestamp: Option<bool>, t: Clock)
      requires ValidClock(t)
      modifies this
      ensures rcInstance == old(rcInstance) && nextSession == old(nextSession)
      ensures effects == old(effects) + [TerminalWrite(ChatLine(text, enableTimestamp, t))]
    {
      effects := effects + [TerminalWrite(ChatLine(text, enableTimestamp, t))];
    }

    /**
     * `onRCConnected`: set the login nickname on the session, retitle the
     * explorer and announce the server (`undefined` when the slot is empty).
     */
    method OnRCConnected(nickname: Option<string>, account: Option<string>)
      modifies this
      ensures rcInstance == old(rcInstance) && nextSession == old(nextSession)
      ensures rcInstance.Some? ==> effects == old(effects) + [
        SetNickName(LoginNickname(nickname, account)),
        UpdateTitle(ServerNameLabel(rcInstance)),
        TerminalWrite(ConnectedLine(rcInstance))]
      ensures rcInstance.None? ==> effects == old(effects) + [
        UpdateTitle(ServerNameLabel(rcInstance)),
        TerminalWrite(ConnectedLine(rcInstance))]
    {
      if rcInstance.Some? {
        effects := effects + [SetNickName(LoginNickname(nickname, account))];
      }
      effects := effects + [UpdateTitle(ServerNameLabel(rcInstance))];
      effects := effects + [TerminalWrite(ConnectedLine(rcInstance))];
    }

    /**
     * `onRCDisconnected`: empty the slot only when the event comes from the
     * session in it, say so in the terminal, give the reason when there is
     * one, and retitle the explorer.
     */
    method OnRCDisconnected(instance: nat, text: Option<string>)
      requires Valid()
      modifies this
      ensures Valid()
      ensures old(rcInstance).Some? && old(rcInstance).value.id == instance ==> rcInstance == None
      ensures !(old(rcInstance).Some? && old(rcInstance).value.id == instance) ==>
        rcInstance == old(rcInstance)
      ensures nextSession == old(nextSession)
      ensures effects == old(effects) + [TerminalWrite("You have been disconnected.")]
        + (if text.Some? && text.value != "" then [TerminalWrite("Reason: " + text.value)] else [])
        + [UpdateTitle(ServerNameLabel(rcInstance))]
    {
      if rcInstance.Some? && rcInstance.value.id == instance {
        rcInstance := None;
      }
      effects := effects + [TerminalWrite("You have been disconnected.")];
      if text.Some? && text.value != "" {
        effects := effects + [TerminalWrite("Reason: " + text.value)];
      }
      effects := effects + [UpdateTitle(ServerNameLabel(rcInstance))];
    }

    /** `onNCConnected`: ask the NPC server for its weapon list when the session has one. */
    method OnNCConnected(hasNpcControl: bool)
      modifies this
      ensures rcInstance == old(rcInstance) && nextSession == old(nextSession)
      ensures effects == old(effects) + (if rcInstance.Some? && hasNpcControl then [RequestWeaponList] else [])
    {
      if rcInstance.Some? && hasNpcControl {
        effects := effects + [RequestWeaponList];
      }
    }
  }
}
