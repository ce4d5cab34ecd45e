/** The logger's level resolution and its forwarding of errors and warnings to Discord.
    Writing to the log file and the console, colours, the call stack and the time stamp
    are left out. */
module Logging {
  import opened Common
  import opened Strings

  datatype Level = Error | Warn | Info

  function LevelName(l: Level): string {
    match l
    case Error => "error"
    case Warn => "warn"
    case Info => "info"
  }

  /** What `client.intlGet(guildId, key)` gives: it may throw, give `undefined`, or a text. */
  datatype Localised = Throws | Undefined | Text(text: string)

  /** The parts of the running client the logger uses: localisation and whether
      `handleLogDispatch` is a function. */
  datatype ClientView = ClientView(intl: (Option<string>, string) -> Localised, handlesDispatch: bool)

  /** The object handed to `client.handleLogDispatch`, without its time stamp. `guildId` and
      `serverName` are `None` when the field is absent or null. */
  datatype Payload = Payload(
    loggerType: string,
    level: Level,
    title: Option<string>,
    text: string,
    guildId: Option<string>,
    serverName: Option<string>,
    source: string)

  /** The `level` argument is a string that names the error level, any case. */
  predicate NamesError(level: Option<string>) {
    level.Some? && Lower(level.value) == "error"
  }

  /** The `level` argument is a string that names the warning level, any case. */
  predicate NamesWarn(level: Option<string>) {
    level.Some? && (Lower(level.value) == "warn" || Lower(level.value) == "warning")
  }

  /** A truthy localised title equal, lower-cased, to the normalised title. */
  predicate TitleMatches(normalizedTitle: string, localised: Localised) {
    localised.Text? && localised.text != "" && normalizedTitle == Lower(localised.text)
  }

  class Logger {
    /** `'default'` or `'guild'`. */
    const loggerType: string
    var guildId: Option<string>
    var serverName: Option<string>

    constructor (loggerType: string)
      ensures this.loggerType == loggerType && guildId.None? && serverName.None?
    {
      this.loggerType := loggerType;
      guildId := None;
      serverName := None;
    }

    method SetGuildId(guildId: Option<string>)
      modifies this`guildId
      ensures this.guildId == guildId
    {
      this.guildId := guildId;
    }

    /** The guild whose language the titles are looked up in: only a guild logger has one. */
    function LocaleGuild(): (g: Option<string>)
      reads this
      ensures loggerType != "guild" ==> g.None?
      ensures loggerType == "guild" ==> g == guildId
    {
      if loggerType == "guild" then guildId else None
    }

    /** `resolveLevel(level, title)`: `level` and `title` are `None` when not strings,
        `client` is `None` when there is no running client. An explicit error or warning
        level wins; otherwise the title decides, warning title first, once both localised
        titles are looked up; anything else, including a lookup that throws, is the
        information level. */
    function ResolveLevel(level: Option<string>, title: Option<string>, client: Option<ClientView>): (r: Level)
      reads this
      ensures NamesError(level) ==> r == Error
      ensures NamesWarn(level) ==> r == Warn
      ensures !NamesError(level) && !NamesWarn(level) && (title.None? || client.None?) ==> r == Info
      ensures r == Error ==>
        || NamesError(level)
        || (&& title.Some? && client.Some?
            && var t := Lower(Trim(title.value));
            && !client.value.intl(LocaleGuild(), "warningCap").Throws?
            && !TitleMatches(t, client.value.intl(LocaleGuild(), "warningCap"))
            && TitleMatches(t, client.value.intl(LocaleGuild(), "errorCap")))
      ensures !NamesError(level) && !NamesWarn(level) && title.Some? && client.Some? ==>
        var t := Lower(Trim(title.value));
        var w := client.value.intl(LocaleGuild(), "warningCap");
        var e := client.value.intl(LocaleGuild(), "errorCap");
        && (w.Throws? || e.Throws? ==> r == Info)
        && (!w.Throws? && !e.Throws? && TitleMatches(t, w) ==> r == Warn)
        && (!w.Throws? && !e.Throws? && !TitleMatches(t, w) && TitleMatches(t, e) ==> r == Error)
        && (!w.Throws? && !e.Throws? && !TitleMatches(t, w) && !TitleMatches(t, e) ==> r == Info)
      ensures r == Warn ==>
        || NamesWarn(level)
        || (&& title.Some? && client.Some?
            && !client.value.intl(LocaleGuild(), "errorCap").Throws?
            && TitleMatches(Lower(Trim(title.value)), client.value.intl(LocaleGuild(), "warningCap")))
    {
      if NamesError(level) then Error
      else if NamesWarn(level) then Warn
      else if title.None? || client.None? then Info
      else
        var normalizedTitle := Lower(Trim(title.value));
        var guild := LocaleGuild();
        var warningTitle := client.value.intl(guild, "warningCap");
        var errorTitle := client.value.intl(guild, "errorCap");
        if warningTitle.Throws? || errorTitle.Throws? then Info
        else if TitleMatches(normalizedTitle, warningTitle) then Warn
        else if TitleMatches(normalizedTitle, errorTitle) then Error
        else Info
    }

    /** `dispatchToDiscord(level, title, text)`: the payload handed to the client, or `None`
        when nothing is forwarded. */
    method DispatchToDiscord(level: Level, title: Option<string>, text: string, client: Option<ClientView>)
      returns (payload: Option<Payload>)
      ensures payload.Some? <==> level != Info && client.Some? && client.value.handlesDispatch
      ensures payload.Some? ==>
        && payload.value.level == level && payload.value.title == title && payload.value.text == text
        && payload.value.loggerType == loggerType
        && (payload.value.source == "Rust+" <==> loggerType == "guild")
        && (payload.value.source == "Bot" <==> loggerType != "guild")
        && (loggerType == "guild" ==> payload.value.guildId == guildId && payload.value.serverName == serverName)
        && (loggerType != "guild" ==> payload.value.guildId.None? && payload.value.serverName.None?)
    {
      if level != Error && level != Warn {
        return None;
      }
      if client.None? || !client.value.handlesDispatch {
        return None;
      }
      var p := Payload(loggerType, level, title, text, None, None, "");
      if loggerType == "guild" {
        p := p.(guildId := guildId, serverName := serverName, source := "Rust+");
      } else {
        p := p.(source := "Bot");
      }
      payload := Some(p);
    }

    /** `log(title, text, level)` as far as Discord sees it: the resolved level, and the
        payload forwarded for it. */
    method Log(title: Option<string>, text: string, level: Option<string>, client: Option<ClientView>)
      returns (resolved: Level, payload: Option<Payload>)
      ensures resolved == ResolveLevel(level, title, client)
      ensures payload.Some? <==> resolved != Info && client.Some? && client.value.handlesDispatch
      ensures payload.Some? ==> payload.value.level == resolved && payload.value.title == title
    {
      resolved := ResolveLevel(level, title, client);
      payload := DispatchToDiscord(resolved, title, text, client);
    }

    /** Resolving again with the resolved level's own name gives the same level, so a
        resolved level passes through unchanged. */
    lemma ResolveLevelStable(level: Option<string>, title: Option<string>, client: Option<ClientView>)
      ensures var r := ResolveLevel(level, title, client);
              ResolveLevel(Some(LevelName(r)), title, client) == r
    {
      var r := ResolveLevel(level, title, client);
      assert Lower("error") == "error";
      assert Lower("warn") == "warn";
      assert Lower("info") == "info";
    }

    /** The level is compared without regard to case. */
    lemma ResolveLevelCaseBlind(level: string, title: Option<string>, client: Option<ClientView>)
      ensures ResolveLevel(Some(Lower(level)), title, client) == ResolveLevel(Some(level), title, client)
    {
      LowerIdempotent(level);
    }
  }
}
