# MCDReforged plugin rules in Dafny

This project models the deterministic rules inside a monorepo of
MCDReforged plugins, together with the release workflow's change
detector. Each plugin mixes game-server and chat I/O with small rules.
Here the rules are pure Dafny functions over immutable datatypes. A
command handler becomes a transition from one state to the next, paired
with the exception it raises and the outputs it emits: server commands,
replies and chat messages.

The modelled parts are:

- the release workflow's change detector (`changeFinder.js`);
- the bot plugin in both versions:
  - the bot registry with its paged listing;
  - the bot's own state machine;
  - name normalisation and list editing;
  - the dimension tables;
  - the REST partial-update decisions;
- the Satori message layer of the IM API plugin:
  - entity escaping and case conversion;
  - selector splitting;
  - the element tree and its rendering;
  - typed elements and their child rules;
  - protocol records with `parse` and `dump`;
  - the global context's life cycle;
- the spectator/teleport plugin in both versions: coordinate validation,
  nether/overworld conversion, range clamping, config migration, `!!spec`,
  `!!tp` and `!!back`;
- three generations of the QQ chat bridge: command tokenising, event
  classification, and the QQ-number-to-player binding map;
- the small plugins:
  - AdvancedBan's duration grammar and ban list;
  - the calculators' character screen, item counts and colours;
  - the twenty-four points answer checks;
  - the vault ledger;
  - the Minecraft item builder;
  - the online player list;
  - the language table;
  - the command argument nodes and dict-defined command trees;
  - `version_compare`;
  - the coloured chat history;
  - Bingo's team chunking.

Shared modules hold the common definitions:

- `Basics`: `Option`, `Result`, and Python's string operations as Python
  evaluates them;
- `Dicts`: Python's insertion-ordered `dict`, as a sequence of entries;
- `Json`: JSON-like values;
- `Words`: the argument-less `str.split()`.

Where the code is inconsistent with itself or with its description, the
handler is modelled as written, and a corrected variant sits beside it
when the intended behaviour is clear. The rest of the model builds on the
corrected variant. Each such pair is listed under Findings.

- Both `isAffectReleaseLog` definitions in `changeFinder.js` (lines 6-8
  and 33-35) are identical. Both test for `fix`, `feat`, `!` and
  `Release-As: `. The model has one predicate.
- `src/bot/bot/constants.py` defines only `COMMAND_TRANSLATION`,
  `USING_TRANSLATION` and `DISPLAY_TRANSLATION`, which are the tables
  modelled in `Dimensions`. Four places read tables it does not define:
  - `save` with a location and `config <name> dimension` in
    `src/bot/bot/command_handler.py` (lines 792 and 878) read
    `INT_TRANSLATION`;
  - `get_location` in `src/bot/bot/plugin.py` (line 138) reads
    `INT_TRANSLATION`;
  - `str_dimension` in `src/bot/bot/location.py` (line 34) reads
    `STR_TRANSLATION`.

  Each is modelled as written, raising `AttributeError`, and once reading
  `COMMAND_TRANSLATION` or `USING_TRANSLATION`. The bot's `spawn` and
  `kill`, the manager, the command handler and the REST endpoints are
  built on the corrected `get_location` (the `whereIs` parameter) and a
  spawn command that carries the location itself. As written, every spawn
  of an offline bot raises (Bots.SpawnAsWritten), and so does the kill of
  an online auto-updating bot (Bots.KillAsWritten).
- The legacy REST handler calls `command_handler.parse_name`
  (`bot/bot/fastapi_manager.py`). The legacy command handler only has the
  name-mangled `__parse_name`, so the call fails. This is listed under
  Findings.

## Model

| member | source | states |
|---|---|---|
| ChangeFinder.TrimStart | changeFinder.js:4 | the start of `trim`: the result is a suffix of the input, every dropped character is JavaScript white space or a line terminator (the Unicode ones included), and a non-empty result does not start with one |
| ChangeFinder.TrimEnd | changeFinder.js:4 | the end of `trim`: the result is a prefix of the input, every dropped character is JavaScript white space or a line terminator (the Unicode ones included), and a non-empty result does not end with one |
| ChangeFinder.Reverse | changeFinder.js:4 | `reverse()`: same length, position `i` holds the input's position `n-1-i` |
| ChangeFinder.TagList | changeFinder.js:4 | splitting the trimmed `git tag` output always yields at least one name, even for an empty output |
| ChangeFinder.FindTag | changeFinder.js:14-23 | the scan picks the first tag in list order that starts with the plugin id (plain prefix, no delimiter); none is picked exactly when no tag starts with it |
| ChangeFinder.SelectRange | changeFinder.js:13-30 | the loop reads `tag...HEAD` for the plugin path exactly when some tag starts with the id, the tag read being one that starts with it; otherwise the whole path-scoped history |
| ChangeFinder.PluginChanged | changeFinder.js:16-29 | a plugin is pushed exactly when the log of its selected range contains `fix`, `feat`, `!` or `Release-As: ` |
| ChangeFinder.ChangedList | changeFinder.js:10-31 | the main loop's list equals the reference filter: the passing plugins, in plugin-list order |
| ChangeFinder.FilterStep | changeFinder.js:11-31 | one loop iteration: the first plugin is pushed when it passes, followed by the rest |
| ChangeFinder.FilterMembership | changeFinder.js:10-31 | an id is in the changed list if and only if it is a listed plugin whose log passes |
| ChangeFinder.FilterIsSubsequence | changeFinder.js:10-31 | the changed list keeps plugin-list order (it is a subsequence of the plugin list) |
| ChangeFinder.FilterDistinct | changeFinder.js:10-31 | distinct plugin ids give a changed list without repeats |
| ChangeFinder.MakeOutputs | changeFinder.js:37-38 | `changed` is true exactly when the list is non-empty, and `plugins` is the list's JSON text |
| ChangeFinder.Run | changeFinder.js:4-38 | the script reports `changed` exactly when some listed plugin's log passes, and its `plugins` output decodes back to exactly the filtered list in plugin order; an empty plugin list gives `false` and `[]` |
| ChangeFinder.EscapeStringDecodes | changeFinder.js:38 | a JSON-escaped string followed by a closing quote decodes back to the string |
| ChangeFinder.JsonRoundTrip | changeFinder.js:38 | the `plugins` output decodes to exactly the changed list |
| Bots.NewBot | src/bot/bot/bot.py:13-49 | a new bot holds the given settings and starts offline, unsaved and with an empty in-game name |
| Bots.DisplayNameChoice | src/bot/bot/bot.py:55-57 | the display name is the comment when it is non-empty and the name otherwise, so it is always one of the two |
| Bots.Apply | src/bot/bot/bot.py:120-188 | each setter stores its value in its own field and leaves every other field as it was |
| Bots.SavingData | src/bot/bot/bot.py:99-118 | the saving data has exactly the keys name, location, comment, actions, tags, autoLogin, autoRunActions and autoUpdate, in that order, and no online, saved or in-game name |
| Bots.SavingDataUnique | src/bot/bot/bot.py:105-118 | the saving data never repeats a key |
| Bots.SavingDataFields | src/bot/bot/bot.py:105-118 | each key of the saving data holds the bot's own value; the location holds position, facing and dimension |
| Bots.LoadLocationJson | src/bot/bot/location.py:56-58 | a written location reads back as itself |
| Bots.LoadBot | src/bot/bot/bot_manager.py:34-50 | an entry of `botList` comes back saved and offline, with no in-game name, under the name stored in the entry |
| Bots.LoadSavingData | src/bot/bot/bot_manager.py:34-50 | loading a bot's saving data gives the same bot back, saved and offline with an empty in-game name |
| Bots.ActionCmds | src/bot/bot/bot.py:258-260 | one `player <mc_name> <action>` command per action, in order |
| Bots.RunActions | src/bot/bot/bot.py:243-260 | with no index every action runs in order, an index in range runs only that action, and any other index raises `IllegalActionIndexException` |
| Bots.Spawn | src/bot/bot/bot.py:190-204 | the corrected `spawn`: raises `BotOnlineException` exactly when the bot is online; otherwise issues one spawn command for the bot's name at its location |
| Bots.Spawned | src/bot/bot/bot.py:206-224 | records the in-game name and sets the bot online; the gamemode command is sent exactly when the bot is saved or gamemode is forced, then the actions run exactly when auto-run is on |
| Bots.Kill | src/bot/bot/bot.py:227-241 | the corrected `kill`: raises `BotOfflineException` exactly when the bot is offline; otherwise the bot is offline afterwards, its location is refreshed and saved only with auto-update, and the kill command goes last |
| Bots.GetLocationAsWritten | src/bot/bot/plugin.py:130-139 | as written `get_location` raises `AttributeError` on every call, since `DIMENSION.INT_TRANSLATION` is not defined |
| Bots.GetLocation | src/bot/bot/plugin.py:130-139 | the corrected `get_location`: position and facing are the reported ones; the dimension is known exactly when the key is a command key, and then names that key back |
| Bots.StrDimensionAsWritten | src/bot/bot/location.py:28-34 | as written `str_dimension` raises `AttributeError` on every call, since `DIMENSION.STR_TRANSLATION` is not defined |
| Bots.StrDimension | src/bot/bot/location.py:28-34 | the corrected `str_dimension`: a resource name starting with `minecraft:` exactly when the dimension is one of the three ids, reading back to that id; `KeyError` otherwise |
| Bots.SpawnAsWritten | src/bot/bot/bot.py:190-204 | as written `spawn` never succeeds: an online bot is `BotOnlineException`, and only then; an offline one raises in `str_dimension` |
| Bots.SpawnAsWrittenDiffers | src/bot/bot/location.py:28-34 | an offline bot is spawned by the corrected `spawn` and raises `AttributeError` as written |
| Bots.KillAsWritten | src/bot/bot/plugin.py:130-139 | as written `kill` succeeds exactly on an online bot without auto update, and then as the corrected one does; an online auto-updating bot raises in `get_location` |
| Bots.KillAsWrittenDiffers | src/bot/bot/bot.py:227-241 | an online auto-updating bot goes offline at the reported place with a kill command when corrected, and raises as written |
| BotManager.PutWellKeyed | src/bot/bot/bot_manager.py:139-144 | storing a bot under its own name keeps every key unique and equal to its bot's name |
| BotManager.Kept | src/bot/bot/bot_manager.py:83-87 | the comprehension's pairs are `(bot.name, bot)` for online or saved bots of the registry |
| BotManager.KeptNames | src/bot/bot/bot_manager.py:83-87 | a name is produced by the comprehension exactly when some online or saved bot carries it |
| BotManager.UpdateList | src/bot/bot/bot_manager.py:79-87 | the cleaned registry is keyed by each bot's current name and holds only online or saved bots of the old one |
| BotManager.UpdateListKeys | src/bot/bot/bot_manager.py:79-87 | a name is a key afterwards if and only if some online or saved bot carried it before |
| BotManager.GetBot | src/bot/bot/bot_manager.py:100-109 | returns the bot stored under the name exactly when the name is present, else `BotNotExistsException` |
| BotManager.NewBotIn | src/bot/bot/bot_manager.py:111-146 | raises `BotAlreadyExistsException` exactly when the name is present; otherwise appends exactly one entry |
| BotManager.NewBotWellKeyed | src/bot/bot/bot_manager.py:138-144 | creating a bot keeps the registry keyed by name without duplicates |
| BotManager.Filtered | src/bot/bot/bot_manager.py:170-176 | the filter never grows the list |
| BotManager.FilteredMembership | src/bot/bot/bot_manager.py:170-176 | a bot is listed if and only if it is `(online and bot.online) or (saved and bot.saved)` and, when a tag is given, carries it |
| BotManager.MaxIndex | src/bot/bot/bot_manager.py:178-181 | the last page index is 0 for no bots and otherwise the `m` with `10m < n <= 10m + 10` |
| BotManager.List | src/bot/bot/bot_manager.py:155-188 | an index outside `[0, max_index]` raises `IllegalListIndexException`; otherwise a page of at most 10 listed bots together with `max_index` |
| BotManager.ListFirstPage | src/bot/bot/bot_manager.py:178-188 | page 0 always exists, even with nothing to list |
| BotManager.PagesPrefix | src/bot/bot/bot_manager.py:186-188 | the first `k` pages concatenated are the first `min(10k, n)` listed bots |
| BotManager.ListPagesCover | src/bot/bot/bot_manager.py:155-188 | every valid index returns its page `bots[10i:10i+10]`, and all the pages together give back the filtered list |
| BotManager.Spawn | src/bot/bot/bot_manager.py:190-211 | an unknown name without a player raises `BotNotSavedException`, an online bot `BotOnlineException` (nothing changes); an unknown name with a player first creates the bot at the player's location; success issues one spawn command and leaves the bot offline until it joins |
| BotManager.Kill | src/bot/bot/bot_manager.py:213-227 | an unknown name raises `BotNotExistsException` and an offline bot `BotOfflineException`, changing nothing; otherwise the bot's own kill runs and the list is cleaned afterwards |
| BotManager.KillUnsavedDisappears | src/bot/bot/bot_manager.py:218-223 | killing a bot that is not saved removes it from the registry |
| BotManager.UpdateListGone | src/bot/bot/bot_manager.py:79-87 | a bot that is neither online nor saved does not survive the cleaning |
| BotManager.Action | src/bot/bot/bot_manager.py:229-243 | an unknown name raises `BotNotExistsException`, an offline bot `BotOfflineException`; otherwise the bot's actions run as `run_actions` decides |
| BotManager.Save | src/bot/bot/bot_manager.py:245-296 | a location without dimension raises `IllegalDimensionException`; no location, unknown name and no player raise `BotNotExistsException`; an already saved bot raises `BotAlreadySavedException`, yet keeps the new location it was given; success marks the bot saved and writes the data; no other bot changes |
| BotManager.SaveNewOthers | src/bot/bot/bot_manager.py:284-292 | creating and then saving a bot leaves every other name's bot alone |
| BotManager.Delete | src/bot/bot/bot_manager.py:298-316 | an unknown name raises `BotNotExistsException`, an unsaved bot `BotNotSavedException` (nothing changes); otherwise the bot is unmarked as saved, the list is cleaned and the data written |
| BotManager.UpdateListStays | src/bot/bot/bot_manager.py:79-87 | a bot that is online or saved stays in the list under its name |
| BotManager.DeleteOffline | src/bot/bot/bot_manager.py:309-314 | after a delete the bot remains in the registry if and only if it is online |
| BotCommands.AddPrefix | src/bot/bot/command_handler.py:339-341 | the name afterwards starts with the prefix |
| BotCommands.AddSuffix | src/bot/bot/command_handler.py:343-345 | the name afterwards ends with the suffix |
| BotCommands.ParseName | src/bot/bot/command_handler.py:330-348 | a parsed name both starts with the configured prefix and ends with the configured suffix |
| BotCommands.ParseNameLower | src/bot/bot/command_handler.py:336-348 | with lower-case affixes the parsed name is all lower-case |
| BotCommands.ParseNameIdempotent | src/bot/bot/command_handler.py:330-348 | parsing a parsed name changes nothing, and the case of the input does not matter |
| BotCommands.TagList | src/bot/bot/command_handler.py:324-328 | a tag is listed if and only if some bot of the registry carries it |
| BotCommands.TaggedMembers | src/bot/bot/bot_manager.py:89-98 | the bots a tag command walks all carry the tag and are in the given online state |
| BotCommands.SpawnCmds | src/bot/bot/command_handler.py:501-504 | one spawn command per bot, in order, at that bot's own location |
| BotCommands.TagSpawn | src/bot/bot/command_handler.py:491-510 | an unknown tag is `TagNotExistsException` exactly; otherwise the count and the spawn commands are those of the tagged offline bots |
| BotCommands.SpawnTagged | src/bot/bot/command_handler.py:500-504 | the loop counts and spawns exactly the tagged offline bots |
| BotCommands.KillEntry | src/bot/bot/command_handler.py:521-524 | one registry entry after the loop: a tagged online bot is killed, any other bot is left alone |
| BotCommands.TagKill | src/bot/bot/command_handler.py:512-531 | an unknown tag is `TagNotExistsException` exactly; otherwise the count is the number of tagged online bots, each entry is killed or kept as `KillEntry` says, and the commands sent are those bots' kill commands in registry order |
| BotCommands.KillTagged | src/bot/bot/command_handler.py:520-524 | the loop keeps every name, kills every tagged online bot, counts them and sends exactly their kill commands, in order |
| BotCommands.KillEntries | src/bot/bot/command_handler.py:520-523 | every entry keeps its name; a tagged online bot is killed in place and any other entry is left alone |
| BotCommands.KillTaggedCmds | src/bot/bot/command_handler.py:520-524 | the count is the number of tagged online bots and the commands are exactly their kill commands, in order |
| BotCommands.KillCmdsKillsEach | src/bot/bot/command_handler.py:520-523 | every online bot in the list has its player killed; with no bot following its player that is one command per bot; offline bots send nothing |
| BotCommands.TagKillLeavesTagOffline | src/bot/bot/command_handler.py:520-524 | after `tag kill` no bot carrying the tag is online, and no entry changed its name |
| BotCommands.ApplyEdit | src/bot/bot/command_handler.py:917-1031 | append adds at the end; insert accepts `0 <= index <= len` and delete or edit `0 <= index < len`, otherwise the index is the error; insert, delete and edit touch only their index; clear empties the list |
| BotCommands.EditInverses | src/bot/bot/command_handler.py:936-989 | deleting at the index just inserted at restores the list, and editing an item to itself changes nothing |
| BotCommands.InsertContents | src/bot/bot/command_handler.py:917-962 | append and insert add exactly the new item to the multiset of items |
| BotCommands.RemoveContents | src/bot/bot/command_handler.py:964-989 | delete removes exactly the item at the index |
| BotCommands.EditContents | src/bot/bot/command_handler.py:991-1017 | edit swaps exactly the item at the index for the new one |
| BotCommands.ConfigList | src/bot/bot/command_handler.py:917-1149 | the `config <name> actions/tags ...` handlers: an unknown bot is `BotNotExistsException`; a bad index is `IllegalActionIndexException` or `IllegalTagIndexException` and changes nothing; otherwise the bot's list becomes the edited list and the data is saved |
| BotCommands.StripComment | src/bot/bot/command_handler.py:906-907 | a comment both starting and ending with `"` loses exactly those two quotes; any other comment is kept |
| BotCommands.LoneQuoteStripped | src/bot/bot/command_handler.py:906-907 | a comment that is a single `"` both starts and ends with it and becomes empty |
| BotCommands.ConfigComment | src/bot/bot/command_handler.py:899-915 | an unknown bot is the only error; otherwise the bot's comment becomes the stripped comment and the data is saved |
| BotCommands.ConfigField | src/bot/bot/command_handler.py:832-868 | position and facing (and, in the same shape, `config <name> autoLogin/autoRunActions/autoUpdate`, lines 1151-1200) change only that one field of the bot and save the data; an unknown bot changes nothing |
| BotCommands.ConfigName | src/bot/bot/command_handler.py:817-830 | an unknown bot changes nothing; otherwise the bot takes the parsed new name, the list is rebuilt and the data saved |
| BotCommands.ConfigNameMovesKey | src/bot/bot/command_handler.py:817-830 | after a rename of a bot that is kept, the new name is a key and the old one is gone unless it is the same |
| BotCommands.SaveLocation | src/bot/bot/command_handler.py:781-795 | a location is built exactly when arguments beyond the name are given; facing defaults to `[0, 0]` and the dimension to `'0'`, and the dimension is set exactly when its key is in the translation table |
| BotCommands.SaveCommand | src/bot/bot/command_handler.py:781-805 | the corrected `save` handler: the dimension error happens exactly for a key outside the table and changes nothing; success leaves the bot saved |
| BotCommands.SaveCommandAsWritten | src/bot/bot/command_handler.py:781-805 | as written, any location argument raises `AttributeError` on `INT_TRANSLATION` with nothing changed; without one it behaves like the corrected handler |
| BotCommands.SaveWithPositionDiffers | src/bot/bot/command_handler.py:786-795 | `save bot_a 0 64 0` succeeds with the translation table and fails as written |
| BotCommands.ConfigDimension | src/bot/bot/command_handler.py:870-897 | the corrected handler: an unknown bot changes nothing; a dimension outside the table is `IllegalDimensionException` yet leaves the in-memory bot with no dimension (data not saved); a known one moves the bot and saves |
| BotCommands.ConfigDimensionAsWritten | src/bot/bot/command_handler.py:870-897 | as written, every known bot hits the missing `INT_TRANSLATION` and nothing changes |
| BotCommands.ConfigDimensionDiffers | src/bot/bot/command_handler.py:870-897 | on a known bot, `config <name> dimension nether` succeeds with the table and fails as written |
| BotCommands.CheckConfig | src/bot/bot/plugin.py:69-86 | every default permission missing from the config is added with its default level, configured levels are kept, nothing else is added, and the config is saved exactly when something was missing |
| BotCommands.WithDefault | src/bot/bot/plugin.py:74-81 | one default is added only when its key is missing, and no other key changes |
| BotCommands.AddDefaults | src/bot/bot/plugin.py:69-86 | the loop over any table of unique defaults ends with the same three facts as `CheckConfig` |
| Dimensions.CommandTranslation | src/bot/bot/constants.py:31-43 | a command key has a dimension exactly when it is one of the eleven keys of the table, and that dimension is one of the three ids |
| Dimensions.UsingTranslation | src/bot/bot/constants.py:26-30 | an id has a resource name exactly when it is one of the three dimensions, and the name is a `minecraft:` id |
| Dimensions.UsingCommandRoundTrip | src/bot/bot/constants.py:26-43 | the resource name of a command key's dimension is itself a command key for the same dimension |
| Dimensions.CommandUsingRoundTrip | src/bot/bot/constants.py:26-43 | every dimension's resource name reads back to the same id |
| BotApi.ValidateLocation | src/bot/bot/fastapi_manager.py:15-18 | a location is accepted exactly with three coordinates, two facing angles (default `[0, 0]`) and a dimension in -1..1, and is taken over unchanged |
| BotApi.ValidatedDimension | src/bot/bot/fastapi_manager.py:15-18 | an accepted location names one of the three dimensions, which has a resource name |
| BotApi.ApplyFields | src/bot/bot/fastapi_manager.py:120-150 | each field the request gives replaces the bot's own; name, online state and saved state are untouched |
| BotApi.Rename | src/bot/bot/fastapi_manager.py:117-119 | a given name is normalised, set on the bot and the registry rebuilt; without a name nothing changes |
| BotApi.SpawnOrKill | src/bot/bot/fastapi_manager.py:152-157 | `online=true` spawns at the bot's location, `online=false` kills, no `online` does nothing |
| BotApi.UpdatedBot | src/bot/bot/fastapi_manager.py:103-160 | the bot ends with the normalised new name, exactly the given fields, its saved state, and the requested online state |
| BotApi.UpdateBotData | src/bot/bot/fastapi_manager.py:103-160 | spawning an online bot or killing an offline one is a 422 that changes nothing; otherwise the answer is the updated bot, the data is saved last, and the registry is the one `update_list` leaves (`Stored`) |
| BotApi.Stored | src/bot/bot/bot_manager.py:79-87 | the registry after `update_list`: without a rename the bot's entry is replaced when present; after a rename the bot sits under its new name, as the final bot, exactly when it survives the comprehension, and otherwise the renamed registry is left |
| BotApi.RenamedSurvives | src/bot/bot/bot_manager.py:79-87 | a renamed bot survives `update_list` only if it was stored under its key and is online or saved |
| BotApi.UpdateListLaterWins | src/bot/bot/bot_manager.py:83-87 | two kept bots carrying one name leave a single entry: the later one |
| BotApi.RenameOntoLaterName | src/bot/bot/fastapi_manager.py:210-253 | renaming `bot_a` onto the name of a saved `bot_b` stored after it answers the renamed bot, yet the registry keeps only the other `bot_b` |
| BotApi.Patch | src/bot/bot/fastapi_manager.py:210-253 | an empty request is refused with 422 first, then an unknown bot with 422; otherwise the update runs on the stored bot |
| BotApi.PatchFieldsOnly | src/bot/bot/fastapi_manager.py:210-253 | a PATCH without name or online changes only the addressed bot, by exactly the given fields, and saves once |
| BotApi.PatchConflictChangesNothing | src/bot/bot/fastapi_manager.py:104-115 | a conflicting online request is refused before any other field is applied |
| BotApi.SaveWithLocation | src/bot/bot/bot_manager.py:245-296 | saving with a location and no player refuses exactly an already saved bot (which still moves); otherwise the bot is saved at that location and keeps its online state |
| BotApi.SavedAs | src/bot/bot/bot_manager.py:290-296 | marking a bot saved keeps its online state and location |
| BotApi.Post | src/bot/bot/fastapi_manager.py:178-208 | an already saved bot is a 422 yet moved to the given location; otherwise the bot is saved first and answered with the normalised name, saved, at the request's location, unless the online request conflicts |
| BotApi.DeleteBot | src/bot/bot/fastapi_manager.py:255-271 | an unknown bot and an unsaved bot are 422s that change nothing; otherwise the bot is deleted as the manager does and is no longer saved |
| LegacyBots.NewLegacyBot | bot/bot/bot.py:11-40 | a fresh bot carries exactly the given fields and is offline and unsaved |
| LegacyBots.RunActions | bot/bot/bot.py:187-204 | an index outside the list is `IllegalActionIndexException`; no index runs every action, an index runs that one action, all as `player <name> <action>` |
| LegacyBots.RunActionsAgree | bot/bot/bot.py:187-204 | the older `run_actions` issues the same commands as the newer one on the same bot |
| LegacyBots.Spawn | bot/bot/bot.py:153-175 | an online bot is `BotOnlineException`; otherwise the bot is marked online at once and the spawn and gamemode commands are followed by every action when auto-run is set |
| LegacyBots.Kill | bot/bot/bot.py:177-185 | an offline bot is `BotOfflineException`; otherwise it is marked offline with one kill command |
| LegacyBots.KillUndoesSpawn | bot/bot/bot.py:153-185 | an offline bot can be spawned, cannot be spawned twice, and killing it restores the bot it was |
| LegacyBots.SavingData | bot/bot/bot.py:79-95 | the saving data has exactly the six older keys, without tags, auto-update, online or saved |
| LegacyBots.SavingDataUnique | bot/bot/bot.py:79-95 | no key repeats in the older saving data |
| LegacyBots.SavingDataFields | bot/bot/bot.py:79-95 | each key looks up the bot's own field |
| LegacyBots.SavingDataAgrees | bot/bot/bot.py:79-95 | every key the older data has holds the same value as in the newer plugin's data |
| LegacyBots.LegacyParseName | bot/bot/command_handler.py:337-354 | the older normalisation adds the affixes first and lower-cases last, so its result is lower-case and carries both affixes lower-cased |
| LegacyBots.LowerAffixes | bot/bot/command_handler.py:343-352 | lower-casing keeps a prefix and a suffix, lower-cased |
| LegacyBots.ParseNameOrderMatters | bot/bot/command_handler.py:337-354 | with prefix `bot_`, `BOT_x` becomes `bot_x` in the newer plugin and `bot_bot_x` in the older one |
| LegacyBots.PrefixedLower | bot/bot/command_handler.py:343-352 | a name not starting like the prefix is prefixed and then lower-cased as a whole |
| LegacyBots.NoSuffix | bot/bot/command_handler.py:347-349 | an empty suffix is never added |
| LegacyBots.LegacyTargetName | bot/bot/command_handler.py:452-470 | `spawn` and `save` hand the normalised name to the bot manager, every other handler the name as typed |
| LegacyBots.LegacyKillMissesSpawnedName | bot/bot/command_handler.py:452-470 | `spawn Alice` addresses `bot_alice` while `kill Alice` addresses `Alice` |
| LegacyBots.ConfigActions | bot/bot/command_handler.py:809-920 | the actions handlers of the older plugin: unknown bot, bad index and success as in the newer plugin, looked up by the name as typed |
| LegacyBots.ConfigActionsFrame | bot/bot/command_handler.py:809-920 | a refused edit changes nothing; a successful one changes only that bot's actions |
| LegacyBots.ConfigComment | bot/bot/command_handler.py:793-807 | an unknown bot is the only error; otherwise the stripped comment is set and the data saved |
| LegacyBots.ConfigDimension | bot/bot/command_handler.py:766-791 | the older handler reads `COMMAND_TRANSLATION`: an unknown key is `IllegalDimensionException` yet leaves the bot without a dimension in memory; a known key moves the bot and saves |
| LegacyBotApi.SpawnOrKill | bot/bot/fastapi_manager.py:115-130 | asking for the state the bot is already in is a 400; otherwise the bot is spawned or killed and ends in the requested state |
| LegacyBotApi.SpawnOrKillCases | bot/bot/fastapi_manager.py:115-130 | each of the four combinations of requested and current state gives its own outcome and message |
| LegacyBotApi.ApplyFields | bot/bot/fastapi_manager.py:215-239 | each given field replaces the bot's own and nothing else changes |
| LegacyBotApi.Update | bot/bot/fastapi_manager.py:215-247 | the fields are applied first; a conflicting online request is then a 400 that keeps them applied but unsaved; otherwise the bot ends in the requested state and the data is saved last |
| LegacyBotApi.Patch | bot/bot/fastapi_manager.py:188-258 | an empty request is a 400, then an unknown bot is a 400; otherwise the update runs |
| LegacyBotApi.PatchConflictAfterFields | bot/bot/fastapi_manager.py:215-247 | a PATCH with a comment and `online=true` on an online bot is a 400 although the comment was already set |
| LegacyBotApi.Post | bot/bot/fastapi_manager.py:135-186 | an already saved bot is a 400; any other manager exception passes through; otherwise the fields and online request of the body are applied to the saved bot at its given location |
| LegacyBotApi.Delete | bot/bot/fastapi_manager.py:260-275 | a successful delete answers nothing; an unknown bot and an unsaved bot are 400s with their own messages |
| LegacyBotApi.PatchAsWritten | bot/bot/fastapi_manager.py:188-195 | as written every request raises `AttributeError`, because the command handler's name method is private and mangled, so nothing changes |
| LegacyBotApi.PatchAsWrittenDiffers | bot/bot/fastapi_manager.py:188-258 | a PATCH of a comment on a known bot succeeds when the name is parsed, and fails as written |
| Coords.CoordValidFixedExact | src/gamemode/gamemode/__init__.py:232-246 | the repaired `is_coord_valid` accepts exactly `~` and the decimal numerals (an optional leading `-`, digits, at most one inner `.`) |
| Coords.LegacyCoordValidFixedExact | gamemode/gamemode/__init__.py:95-103 | the repaired `coordValid` accepts exactly the decimal numerals |
| Coords.NumeralsAccepted | src/gamemode/gamemode/__init__.py:232-246 | every decimal numeral passes both validators as written |
| Coords.CoordValidAcceptsDoubleMinus | src/gamemode/gamemode/__init__.py:232-246 | `--5` passes `is_coord_valid` as written, although it is no numeral and the repaired check refuses it |
| Coords.LegacyCoordValidAcceptsTrailingMinus | gamemode/gamemode/__init__.py:95-103 | `5-` passes `coordValid` as written, although it is no numeral and the repaired check refuses it |
| Gamemode.DimensionOf | src/gamemode/gamemode/__init__.py:102-114 | a `!!tp` argument names one of the three resource names or nothing |
| Gamemode.DimensionOfAgreesWithBot | src/gamemode/gamemode/__init__.py:102-114 | the table knows the same eleven keys as the bot plugin's command table and maps each to the same dimension |
| Gamemode.NetherToOverworld | src/gamemode/gamemode/__init__.py:146-147 | the integer part of the coordinate, truncated toward zero, times 8 |
| Gamemode.OverworldToNether | src/gamemode/gamemode/__init__.py:150-151 | the integer nearest to `x / 8`, halves rounded up |
| Gamemode.ConversionRoundTrip | src/gamemode/gamemode/__init__.py:146-151 | on whole nether coordinates, going to the overworld and back returns the same coordinate |
| Gamemode.ClampAxis | src/gamemode/gamemode/__init__.py:175-195 | a coordinate moves exactly when its axis is constrained and it lies outside `[c - r, c + r]`, and then lands inside |
| Gamemode.Clamp | src/gamemode/gamemode/__init__.py:168-201 | a teleport happens exactly when some constrained axis is out of range, which is exactly when the position changes, and the result is in range on every axis |
| Gamemode.ClampSettles | src/gamemode/gamemode/__init__.py:168-201 | a clamped position needs no further teleport |
| Gamemode.UnconstrainedNeverMoves | src/gamemode/gamemode/__init__.py:363-371 | with no constrained axis the range check is off and nobody is ever moved |
| Gamemode.Migrate | src/gamemode/gamemode/__init__.py:67-75 | a version-1 config becomes version 2 with `['!s']` exactly when `short_command` was set, the same four permission levels and default data path and range limit |
| Gamemode.MigrateToLatest | src/gamemode/gamemode/__init__.py:527-528 | a version-2 config is kept and a version-1 config is migrated once |
| Gamemode.LoadConfig | src/gamemode/gamemode/__init__.py:489-530 | no file gives the defaults; a missing version means 1; an unknown version raises; version 2 is loaded as is; version 1 is migrated and written back |
| Gamemode.LoadKeepsPermissions | src/gamemode/gamemode/__init__.py:489-530 | the permission levels a version-1 file grants survive loading |
| Gamemode.SpecLiterals | src/gamemode/gamemode/__init__.py:380-384 | `!!spec` followed by the configured short commands, in order |
| Gamemode.UsedMinutes | src/gamemode/gamemode/__init__.py:225 | minutes spent in spectator, rounded up |
| Gamemode.ChangeMode | src/gamemode/gamemode/__init__.py:208-228 | an offline target is refused; a player not in spectator is recorded at the current place, watched unless exempt, and switched to spectator; a spectator is told the minutes used, sent back, switched to survival and forgotten |
| Gamemode.ChangeModeTwice | src/gamemode/gamemode/__init__.py:208-228 | switching twice restores the state and teleports the player back where they started |
| Gamemode.MonitoredOnLoad | src/gamemode/gamemode/__init__.py:362-377 | on load a spectator is watched exactly when the range check is on and their level is below the `tp` permission |
| Gamemode.PlayerJoined | src/gamemode/gamemode/__init__.py:533-537 | a joining spectator is put back into spectator and watched below the `tp` level; anyone else is left alone |
| Gamemode.PlayerLeft | src/gamemode/gamemode/__init__.py:540-542 | a leaving spectator is no longer watched and nobody else's status changes |
| Gamemode.TpParams | src/gamemode/gamemode/__init__.py:251-259 | the parameters are the given ones up to the first empty one |
| Gamemode.TpDecide | src/gamemode/gamemode/__init__.py:261-333 | one argument: a dimension (refused if current; nether and overworld convert the position) or an online player, otherwise refused; three: coordinates the given validator accepts, in the current dimension, not all `~`; four: a known dimension and accepted coordinates, not `~ ~ ~` in the current one; an accepted coordinate `float()` rejects raises `ValueError` |
| Gamemode.Perform | src/gamemode/gamemode/__init__.py:335-345 | a refusal only replies; otherwise the current place becomes the back point, the data is saved and one teleport is issued |
| Gamemode.Tp | src/gamemode/gamemode/__init__.py:231-345 | the corrected `!!tp`: a player not in spectator is refused and nothing else happens; otherwise the decision is performed; nothing raises |
| Gamemode.TpAsWritten | src/gamemode/gamemode/__init__.py:231-345 | as written: coordinates pass the unrepaired `is_coord_valid`; `ValueError` is raised exactly when an accepted coordinate is not a float; outside spectator the refusal does not return, so exactly the moving targets then raise `KeyError` |
| Gamemode.TpOutsideSpectatorDiffers | src/gamemode/gamemode/__init__.py:248-249 | `!!tp 0 64 0` outside spectator is a plain refusal when corrected and a `KeyError` as written |
| Gamemode.DoubleMinusRaises | src/gamemode/gamemode/__init__.py:232-246 | `!!tp --5 0 0` by a spectator raises `ValueError` as written and is refused as an invalid coordinate when the validator is repaired |
| Gamemode.FixedNeverRaises | src/gamemode/gamemode/__init__.py:310-333 | with the repaired validator no decision raises `ValueError`, given that `float()` reads every decimal numeral |
| Gamemode.Back | src/gamemode/gamemode/__init__.py:347-361 | a player not in spectator is refused; otherwise the current place becomes the back point and the player returns to the previous one |
| Gamemode.BackUndoesTp | src/gamemode/gamemode/__init__.py:335-361 | `!!back` after a teleport returns the player to where the teleport started |
| LegacyGamemode.ChangeMode | gamemode/gamemode/__init__.py:80-91 | the console is refused; otherwise a player not in spectator is recorded and one in spectator is sent back and forgotten |
| LegacyGamemode.ChangeModeTwice | gamemode/gamemode/__init__.py:80-91 | switching twice restores the data |
| LegacyGamemode.TpDecide | gamemode/gamemode/__init__.py:120-196 | one argument must be a known dimension other than the current one (nether and overworld convert); three take the first as coordinate in the current dimension, refused when the validator rejects it and `ValueError` when `float()` does; four need a known dimension |
| LegacyGamemode.Tp | gamemode/gamemode/__init__.py:94-208 | the corrected older `!!tp`: console and non-spectators are refused; otherwise the decision is performed |
| LegacyGamemode.TpAsWritten | gamemode/gamemode/__init__.py:94-208 | as written: the coordinate passes the unrepaired `coordValid`, and `ValueError` is raised exactly when it is then not a float; a non-spectator with an accepted place raises `KeyError` |
| LegacyGamemode.TpOutsideSpectatorDiffers | gamemode/gamemode/__init__.py:106-107 | `!!tp overworld 0 64 0` outside spectator is a refusal when corrected and a `KeyError` as written |
| LegacyGamemode.TrailingMinusRaises | gamemode/gamemode/__init__.py:95-103 | `!!tp 5- 64 0` by a spectator raises `ValueError` as written and is refused as an invalid coordinate when the validator is repaired |
| LegacyGamemode.Back | gamemode/gamemode/__init__.py:214-234 | the console is refused; otherwise as in the newer plugin |
| LegacyGamemode.PlayerJoined | gamemode/gamemode/__init__.py:311-313 | a joining spectator is put back into spectator |
| QqChat.MainGroup | src/qq_chat/qq_chat/__init__.py:278-282 | there is a main group exactly when one is configured, and it is a configured one |
| QqChat.CommandPrefix | src/qq_chat/qq_chat/__init__.py:175-181 | no prefix is found exactly when no non-empty configured prefix starts the message; otherwise it is the first one that does |
| QqChat.Drop | src/qq_chat/qq_chat/__init__.py:271-274 | Python's `msg[k:]`, empty once `k` is past the end |
| QqChat.ParseCommandList | src/qq_chat/qq_chat/__init__.py:268-275 | the command words are non-empty and free of whitespace |
| QqChat.ParseCommandListRoundTrip | src/qq_chat/qq_chat/__init__.py:268-275 | words typed after a one-character prefix, or after a longer prefix and a space, are read back exactly |
| QqChat.LongPrefixNeedsSpace | src/qq_chat/qq_chat/__init__.py:270-271 | with the prefix `!!` the message `!!list` loses its first letter and reads as `ist` |
| QqChat.ParseEventType | src/qq_chat/qq_chat/__init__.py:370-403 | private chats are private types, the main group comes before the sync groups and those before the manage groups, another group is no event, and apart from the manage group the admin kinds are exactly the admins' |
| QqChat.AdminRights | src/qq_chat/qq_chat/__init__.py:66-71 | an event has admin rights exactly when an admin speaks where the plugin listens, or anyone speaks in a manage group |
| QqChat.SendToMain | src/qq_chat/qq_chat/__init__.py:335-345 | nothing without a main group, else one message to it |
| QqChat.SendToAll | src/qq_chat/qq_chat/__init__.py:325-332 | one message, to the main group |
| QqChat.SendToGroupsAsWritten | src/qq_chat/qq_chat/__init__.py:359-367 | as written one message per sync group, each addressed to the main group |
| QqChat.SendToGroups | src/qq_chat/qq_chat/__init__.py:359-367 | the corrected loop: one message per listed group, to that group |
| QqChat.SendToGroupsReachesEach | src/qq_chat/qq_chat/__init__.py:359-367 | a group receives the message exactly when it is listed |
| QqChat.SendToGroupsAsWrittenDiffers | src/qq_chat/qq_chat/__init__.py:359-367 | with the default config the sync group `1234567` never receives a message as written, while the main group receives it twice |
| QqChat.OnUserInfo | src/qq_chat/qq_chat/__init__.py:157-163 | as written: a player's chat line not starting with `!!qq` is sent once per sync group, every copy addressed to the main group; anything else sends nothing |
| QqChat.QqCommand | src/qq_chat/qq_chat/__init__.py:137-143 | as written: when enabled `!!qq` sends the line to the main group and then once per sync group, again to the main group; else nothing |
| QqChat.OnUserInfoFixed | src/qq_chat/qq_chat/__init__.py:157-163 | with messages addressed to their own group, a player's chat line reaches a group exactly when it is a sync group |
| QqChat.QqCommandFixed | src/qq_chat/qq_chat/__init__.py:137-143 | with messages addressed to their own group, `!!qq` sends to the main group and then through the sync groups, and a group receives it exactly when it is the configured main group or a sync group |
| QqChat.OnUserInfoAsWrittenDiffers | src/qq_chat/qq_chat/__init__.py:359-367 | with the default config a chat line reaches the main group twice and sync group `1234567` never as written, and reaches `1234567` when corrected |
| QqChat.OnServerStartup | src/qq_chat/qq_chat/__init__.py:153-154 | the start-up notice goes to the main group |
| QqChat.Run | src/qq_chat/qq_chat/__init__.py:293-302 | with RCON the command is queried and its output, or a no-output note, replied; without it the command is executed and a no-RCON note replied |
| QqChat.Category | src/qq_chat/qq_chat/__init__.py:434-440 | a player's category is the first pattern it matches, or none |
| QqChat.InCategory | src/qq_chat/qq_chat/__init__.py:432-440 | every player listed under a category is online and belongs to it |
| QqChat.CategoriseContents | src/qq_chat/qq_chat/__init__.py:432-448 | each category holds exactly its online members in order, and appears only when it has some |
| QqChat.ListCommand | src/qq_chat/qq_chat/__init__.py:418-448 | disabled, no player API and nobody online each give their reply; otherwise the categorised list |
| QqChat.AfterBound | src/qq_chat/qq_chat/__init__.py:629-637 | the binding is confirmed first; the whitelist command from the template runs exactly when `whitelist_add_with_bound` is set, and no other command runs |
| QqChat.BoundBy | src/qq_chat/qq_chat/__init__.py:616-619 | the QQ number bound to a player, found exactly when some entry names the player |
| QqChat.BindSelf | src/qq_chat/qq_chat/__init__.py:609-626 | an already bound user and a taken player name are refused with their replies; otherwise exactly one entry is added, the data saved and `after_bound` runs |
| QqChat.BindSelfKeepsOneToOne | src/qq_chat/qq_chat/__init__.py:609-626 | self-binding keeps QQ numbers and player names one-to-one |
| QqChat.AdminBindCanShare | src/qq_chat/qq_chat/__init__.py:497-503 | an admin binding can give one player two QQ numbers |
| QqChat.BoundCommand | src/qq_chat/qq_chat/__init__.py:451-517 | non-admins self-bind with a name and only get a reply without one; admins remove with `unbound` (saving exactly when the number was bound) and bind any number with two words; help, list and check change nothing |
| QqChat.Nickname | src/qq_chat/qq_chat/__init__.py:533-537 | the bound player name, else the QQ name |
| QqChat.McCommand | src/qq_chat/qq_chat/__init__.py:520-547 | never runs a command; when enabled and given text it says the line in game, green for admins |
| QqChat.WhitelistCommand | src/qq_chat/qq_chat/__init__.py:550-565 | non-admins are refused; admins with arguments run the whole line; nothing else runs a command |
| QqChat.McdrLine | src/qq_chat/qq_chat/__init__.py:582-585 | the joined words, with `!!` put in front unless already there |
| QqChat.McdrCommand | src/qq_chat/qq_chat/__init__.py:568-587 | disabled and non-admin each get their reply; only an enabled admin request with arguments runs, as an `!!` line |
| QqChat.CommandCommand | src/qq_chat/qq_chat/__init__.py:590-606 | disabled and non-admin each get their reply; only an enabled admin request with arguments runs the joined line |
| QqChat.OnQqCommand | src/qq_chat/qq_chat/__init__.py:229-265 | no event does nothing; a command with no words raises `IndexError`; only `bound` can change the bindings |
| QqChat.Dispatch | src/qq_chat/qq_chat/__init__.py:241-265 | the first word picks the handler; only `bound` changes the data, and a non-admin runs nothing except through self-binding |
| QqChat.BindSelfOnlyWhitelistAdd | src/qq_chat/qq_chat/__init__.py:609-637 | self-binding runs no server command but the whitelist addition |
| QqChat.AfterBindOnlyWhitelistAdd | src/qq_chat/qq_chat/__init__.py:629-637 | a successful binding runs no server command but the whitelist addition |
| QqChat.NonAdminRunsOnlyWhitelistAdd | src/qq_chat/qq_chat/__init__.py:229-265 | whatever a QQ user without admin rights types, the only server command it can cause is the whitelist addition of a binding |
| QqChat.NothingRunIsWhitelistOnly | src/qq_chat/qq_chat/__init__.py:229-265 | outputs that run nothing trivially run nothing but the whitelist addition |
| QqChat.OnMessage | src/qq_chat/qq_chat/__init__.py:170-200 | other platforms are ignored; a prefixed message is a command; otherwise a sync group's message is said in game under the nickname, green for admins |
| QqChat.OnNotice | src/qq_chat/qq_chat/__init__.py:203-222 | only a main-group leave of a bound member, with `whitelist_remove_with_leave`, removes the whitelist entry and the binding, tells the group and saves |
| QqChat.OnNoticeKeepsOthers | src/qq_chat/qq_chat/__init__.py:203-222 | a leave notice removes only the member who left, and that member is gone |
| LegacyQqChat.CommandWords | qq_chat/qq_chat/__init__.py:145-146 | the words split on single spaces, with every `/` taken out of the first one only |
| LegacyQqChat.CommandWordsOfTyped | qq_chat/qq_chat/__init__.py:145-146 | `/w0 w1 ...` with space- and slash-free words reads back as exactly those words |
| LegacyQqChat.SplitJoinWords | qq_chat/qq_chat/__init__.py:145 | splitting space-free words joined by single spaces gives the words back |
| LegacyQqChat.UnescapeEscape | qq_chat/qq_chat/__init__.py:214-215 | undoing the `&#91;`/`&#93;` escapes of a text without `&` gives back the text typed |
| LegacyQqChat.TypedEntityUnescapes | qq_chat/qq_chat/__init__.py:214-215 | a typed `&#91;` passes escaping untouched and comes back as `[`, so the `&` condition is needed |
| LegacyQqChat.Run | qq_chat/qq_chat/__init__.py:250-258 | the command goes through RCON when it runs, else to the console with a no-RCON reply |
| LegacyQqChat.PrivateBound | qq_chat/qq_chat/__init__.py:179-206 | `/bound` never runs a command; only `unbound <qq>` (removing it) and `<digits> <player>` (binding it, saving and confirming) change the data |
| LegacyQqChat.PrivateKindOf | qq_chat/qq_chat/__init__.py:176-216 | the private branch is chosen by the message's start: `/bound`, `/whitelist` or `/command ` |
| LegacyQqChat.PrivateCommand | qq_chat/qq_chat/__init__.py:176-216 | `/whitelist x` with one word raises `IndexError`; only a listed whitelist action or `/command` runs anything, the latter on its unescaped text; only `/bound` changes the data |
| LegacyQqChat.GroupCommand | qq_chat/qq_chat/__init__.py:220-242 | only `bound <player>` can change the data, and never for a member already bound |
| LegacyQqChat.GroupBind | qq_chat/qq_chat/__init__.py:226-242 | a bound member gets their binding back; otherwise exactly one entry is added, and the whitelist command runs exactly when `whitelist_add_with_bound` is set |
| LegacyQqChat.BindOuts | qq_chat/qq_chat/__init__.py:235-242 | a successful group binding runs the whitelist addition exactly when configured and nothing else |
| LegacyQqChat.OnQqCommand | qq_chat/qq_chat/__init__.py:139-173 | a message from outside the configured groups and admins is ignored; `/list` without the player API raises; only private or group handlers change data; outside private chat RCON is never queried |
| LegacyQqChat.Drop | qq_chat/qq_chat/__init__.py:161 | Python's `content[k:]`, empty once `k` is past the end |
| LegacyQqChat.PrivateNeedsAdmin | qq_chat/qq_chat/__init__.py:139-173 | a private message changes bindings or runs anything only for an admin |
| LegacyQqChat.GroupBindOnce | qq_chat/qq_chat/__init__.py:220-242 | a member already bound cannot rebind from a group |
| LegacyQqChat.OnMessage | qq_chat/qq_chat/__init__.py:101-116 | a `/` message is a command; other text from a configured group is said in game for a bound member or answered with a request to bind when `qq_to_mc` is on; nothing else happens |
| LegacyQqChat.OnNotice | qq_chat/qq_chat/__init__.py:119-132 | only a bound member leaving a configured group, with `whitelist_remove_with_leave`, loses the binding and the whitelist entry |
| LegacyQqChat.OnNoticeKeepsOthers | qq_chat/qq_chat/__init__.py:119-132 | no other member's binding changes |
| LegacyQqChat.SendToAll | qq_chat/qq_chat/__init__.py:265-269 | one message per configured group, to that group, in order |
| LegacyQqChat.OnUserInfo | qq_chat/qq_chat/__init__.py:92-94 | game chat of a player goes to every group exactly when `mc_to_qq` is on |
| LegacyQqChat.QqCommand | qq_chat/qq_chat/__init__.py:72-75 | `!!qq` goes to every group, from the player or `Console`, exactly when the `qq` switch is on |
| OldQqChat.RunRaw | QQChat/QQChat.py:180-194 | RCON output is answered as it is; a console command gets no answer |
| OldQqChat.PrivateCommand | QQChat/QQChat.py:149-196 | the private commands as in the later version, with RCON output answered raw |
| OldQqChat.Common | QQChat/QQChat.py:117-128 | `/list` without the player API is the only error, and neither `/list` nor `/mc` runs a command |
| OldQqChat.OnQqCommand | QQChat/QQChat.py:111-132 | a source outside the groups and admins is ignored; a group message runs `/list` or `/mc` and then the group handler as well; only private or group handlers change data |
| OldQqChat.PrivateNeedsAdmin | QQChat/QQChat.py:111-132 | in private chat only a listed source changes bindings or runs anything |
| OldQqChat.OnQqInfo | QQChat/QQChat.py:99-108 | with `qq_to_mc`, a configured group's message is said in game for a bound member or answered with a request to bind; otherwise nothing |
| OldQqChat.OnQqNotice | QQChat/QQChat.py:135-146 | a leave notice does what the later version does |
| AdvancedBan.DigitRun | AdvancedBan/AdvancedBan.py:194 | the leading run of digits is maximal |
| AdvancedBan.LetterRun | AdvancedBan/AdvancedBan.py:194 | the leading run of lower-case letters is maximal up to three |
| AdvancedBan.TokensAreTokens | AdvancedBan/AdvancedBan.py:194 | every piece `re.findall(r'[0-9]+\|[a-z]{1,3}', s)` returns is a digit run or one to three lower-case letters |
| AdvancedBan.TokensAppend | AdvancedBan/AdvancedBan.py:194 | tokenising a string that ends in a digit followed by one starting with a letter (or the reverse) splits at the seam |
| AdvancedBan.UnitSeconds | AdvancedBan/AdvancedBan.py:203-218 | exactly `s`, `m`, `h`, `d`, `w`, `mon`, `y` are units |
| AdvancedBan.SumPairs | AdvancedBan/AdvancedBan.py:200-222 | the loop over value-unit pairs fails only with `ValueError`, and succeeds exactly when every pair is a number followed by a known unit |
| AdvancedBan.PairsOkStep | AdvancedBan/AdvancedBan.py:200-222 | a list of pairs is well formed exactly when its first pair is and the rest is |
| AdvancedBan.OnePair | AdvancedBan/AdvancedBan.py:200-222 | one pair is worth its number times its unit's seconds |
| AdvancedBan.CalcTime | AdvancedBan/AdvancedBan.py:193-222 | no token at all raises `IndexError`; a first token that is not a number, or an odd number of tokens, raises `ValueError`; otherwise the result is the sum of the pairs |
| AdvancedBan.SumPairsAppend | AdvancedBan/AdvancedBan.py:200-222 | the seconds of two runs of pairs add up |
| AdvancedBan.CalcTimeAppend | AdvancedBan/AdvancedBan.py:193-222 | `calc_time` of two valid durations written one after the other is the sum of their seconds |
| AdvancedBan.HourIsNotAUnit | AdvancedBan/AdvancedBan.py:194 | `hour` is read as `hou` and `r`, so `1hour` is a `ValueError` |
| AdvancedBan.OneDayTwelveHours | AdvancedBan/AdvancedBan.py:193-222 | `1d12h` is 129600 seconds |
| AdvancedBan.RStrip | AdvancedBan/AdvancedBan.py:190 | `rstrip(' ')` removes exactly the trailing blanks |
| AdvancedBan.KickCommand | AdvancedBan/AdvancedBan.py:186-190 | the kick line starts with `kick <player>` and the message, adds ` 原因: <reason>` when a reason is given, and never ends in a blank |
| AdvancedBan.KickLine | AdvancedBan/AdvancedBan.py:187-190 | the kick line without a reason ends in a non-blank |
| AdvancedBan.RStripKeeps | AdvancedBan/AdvancedBan.py:190 | stripping blanks never reaches into text that ends in something else |
| AdvancedBan.BanedCheck | AdvancedBan/AdvancedBan.py:224-242 | an unbanned player is left alone; a permanent ban kicks with `永久封禁` and the reason in brackets; a running ban kicks with the reason and the formatted end time, and sends nothing else; an ended ban is lifted and saved; a ban ending this very instant does nothing |
| AdvancedBan.Impose | AdvancedBan/AdvancedBan.py:70-78 | a new ban is stored and saved, then checked at once (kicking with the check's reason text while it runs, lifting it if already over), then confirmed |
| AdvancedBan.BanCommand | AdvancedBan/AdvancedBan.py:66-78 | an already banned player is refused; otherwise a permanent ban from the current whole second is stored, the player kicked with `永久封禁` and the reason in brackets, and the ban confirmed |
| AdvancedBan.TempbanAsWritten | AdvancedBan/AdvancedBan.py:94-111 | as written a duration with no token raises `IndexError`, which the handler does not catch; otherwise it is the corrected handler |
| AdvancedBan.Tempban | AdvancedBan/AdvancedBan.py:94-111 | the corrected handler: an already banned player is refused; any invalid duration is answered as such; otherwise the ban until `int(now) + seconds` is imposed, kicking with the reason and the formatted end time while it runs |
| AdvancedBan.ImposeFor | AdvancedBan/AdvancedBan.py:98-111 | a temporary ban of `seconds` from the current whole second: stored unless already over, kicking with the reason and the formatted end time while it runs (an end of exactly -1 reads as permanent) |
| AdvancedBan.ImposeUntil | AdvancedBan/AdvancedBan.py:104-111 | a ban with a given end is stored unless already over, kicks with the check's reason text while it runs, and is always saved and confirmed |
| AdvancedBan.NeverPermanent | AdvancedBan/AdvancedBan.py:98-106 | a temporary ban that happens to end at -1 is already over, so it is never mistaken for a permanent one while stored |
| AdvancedBan.RemoveAppended | AdvancedBan/AdvancedBan.py:129-136 | lifting a ban just added gives back the list from before |
| AdvancedBan.TempbanAsWrittenDiffers | AdvancedBan/AdvancedBan.py:98-102 | `!!tempban <player> XYZ` raises `IndexError` as written and is answered as an invalid time when corrected |
| AdvancedBan.Unban | AdvancedBan/AdvancedBan.py:129-136 | a player not banned gets a reply; otherwise exactly that ban is removed, confirmed and saved; no other ban changes |
| AdvancedBan.Kick | AdvancedBan/AdvancedBan.py:186-190 | one console command, the kick line |
| Calculator.FirstIllegal | advanced_calculator/advanced_calculator/__init__.py:6-42 | the first character outside the whitelist, and none exactly when every character is on it |
| Calculator.Screen | advanced_calculator/advanced_calculator/__init__.py:35-42 | `**` is refused before anything else; otherwise the refused text is one character off the whitelist; nothing is refused exactly when there is no `**` and every character is allowed |
| Calculator.SecurityEval | advanced_calculator/advanced_calculator/__init__.py:29-45 | a refused expression raises `IllegalCharacterException` without being evaluated; otherwise the value or the error of `eval` |
| Calculator.ScreenedNeverEvaluated | advanced_calculator/advanced_calculator/__init__.py:35-45 | for a refused expression the outcome is the same whatever `eval` would do |
| Calculator.PowerRefused | advanced_calculator/advanced_calculator/__init__.py:36-37 | `2**9` is refused as `IllegalCharacterException` |
| Calculator.Decompose | advanced_calculator/advanced_calculator/__init__.py:125-128 | for any count the stacks lie in 0..26 and the singles in 0..63, the boxes are non-negative exactly when the count is, and recomposing gives the count back |
| Calculator.DecomposeCompose | advanced_calculator/advanced_calculator/__init__.py:125-148 | a split with stacks in 0..26 and singles in 0..63 is the one the count it composes to decomposes into |
| Calculator.CalcExpression | advanced_calculator/advanced_calculator/__init__.py:107-117 | the handler escapes only for an error it does not catch; a shown value is what `eval` gave a screened expression |
| Calculator.CalcItemCount | advanced_calculator/advanced_calculator/__init__.py:120-143 | the count is screened and evaluated first; a shown split recomposes to the evaluated count |
| Calculator.CalcItemStacks | advanced_calculator/advanced_calculator/__init__.py:144-156 | a box count that is not an integer gives `无效的整数`; otherwise the three numbers and the count they compose |
| Calculator.LegacyCalcItem | AdvancedCalculator/AdvancedCalculator.py:75-87 | the older one-argument form: the count with a split in range that recomposes to it |
| Calculator.LegacyCalcStacks | AdvancedCalculator/AdvancedCalculator.py:88-96 | the older three-argument form: the split and its count, which decomposes back into the split when it is in range |
| Calculator.RouteChat | advanced_calculator/advanced_calculator/__init__.py:88-98 | `==` goes to the item calculation with the rest; a single `=` to the expression; any other chat is ignored |
| Calculator.HexDigit | advanced_calculator/advanced_calculator/__init__.py:167-168 | an upper-case hex digit of the given value |
| Calculator.HexValue | advanced_calculator/advanced_calculator/__init__.py:173 | a hex digit's value is below 16 |
| Calculator.HexNumber | advanced_calculator/advanced_calculator/__init__.py:173 | `int(s, 16)` on a plain run of hex digits: it succeeds exactly when the text is non-empty and every character is a hex digit (no sign, blanks, underscores or prefix) |
| Calculator.Hex2 | advanced_calculator/advanced_calculator/__init__.py:167 | a byte as two upper-case hex digits that read back as the byte |
| Calculator.RgbToHex | advanced_calculator/advanced_calculator/__init__.py:160-168 | `ValueError` exactly when a component lies outside 0..255; otherwise six upper-case hex digits |
| Calculator.Slice | advanced_calculator/advanced_calculator/__init__.py:182 | Python's slice is never longer than asked |
| Calculator.Component | advanced_calculator/advanced_calculator/__init__.py:172-176 | a component is the hex number read, in 0..255, or a `ValueError` |
| Calculator.HexToRgb | advanced_calculator/advanced_calculator/__init__.py:170-182 | the three components read are bytes, or the result is a `ValueError` |
| Calculator.UpperHex | advanced_calculator/advanced_calculator/__init__.py:168-181 | upper-casing what `rgb_to_hex` writes changes nothing |
| Calculator.HexRoundTrip | advanced_calculator/advanced_calculator/__init__.py:160-177 | `hex_to_rgb` reads `#` followed by what `rgb_to_hex` wrote as the original three bytes |
| Calculator.CalcColor | advanced_calculator/advanced_calculator/__init__.py:159-189 | with one argument, a result exactly when `hex_to_rgb` of the upper-cased text succeeds; with three, exactly when the first is an integer and `rgb_to_hex` succeeds; any failure is reported as the exception's name |
| Calculator.CalcColorRoundTrip | advanced_calculator/advanced_calculator/__init__.py:159-189 | `!!calc color <#hex>` of what `!!calc color r g b` printed gives back r, g and b |
| TwentyFourPoints.OpsListComplete | TwentyFourPoints/TwentyFourPoints.py:24-27 | every operator triple stands at the place the nested loops give it |
| TwentyFourPoints.OpsListDistinct | TwentyFourPoints/TwentyFourPoints.py:24-27 | no triple is listed twice, so the 64 entries are the 4³ triples |
| TwentyFourPoints.RunLength | TwentyFourPoints/TwentyFourPoints.py:124 | the leading number ends at the first operator or bracket |
| TwentyFourPoints.Numbers | TwentyFourPoints/TwentyFourPoints.py:124-126 | the pieces `re.split` leaves once the empty ones are dropped are non-empty and hold no operator; in a permitted answer they are digit runs |
| TwentyFourPoints.NumbersAppend | TwentyFourPoints/TwentyFourPoints.py:124-126 | an operator splits: the numbers of `a op b` are those of `a` followed by those of `b` |
| TwentyFourPoints.RunLengthAppend | TwentyFourPoints/TwentyFourPoints.py:124 | the leading number is found before the first operator |
| TwentyFourPoints.Values | TwentyFourPoints/TwentyFourPoints.py:130 | `int(x)` of each number, in order |
| TwentyFourPoints.CheckAnswer | TwentyFourPoints/TwentyFourPoints.py:115-142 | a character off the whitelist gives 3 first; right exactly when there are four numbers, they are the drawn ones as a multiset, and the value is 24; wrong numbers exactly when the characters pass but the count or the multiset does not |
| TwentyFourPoints.OnUserInfo | TwentyFourPoints/TwentyFourPoints.py:95-112 | only a player's `24=` line while a question is open is answered; the prize is paid exactly when the answer is right, which closes the question; the numbers never change |
| TwentyFourPoints.PaidOnce | TwentyFourPoints/TwentyFourPoints.py:96-105 | after a right answer the next line pays nothing |
| Vault.TotalRemove | Archive/vault/vault.py:79-92 | the money in the vault is any one account's balance plus the rest |
| Vault.TotalSwap | Archive/vault/vault.py:79-92 | taking either of two accounts out first gives the same total |
| Vault.TotalUpdate | Archive/vault/vault.py:127-144 | storing one account changes the total by exactly that account's change |
| Vault.CreateAccount | Archive/vault/vault.py:176-191 | an existing account is left alone; a new one opens and updates at `now` with balance 0; no other account changes and the total stays |
| Vault.GetBalance | Archive/vault/vault.py:205-215 | `AccountNotExistsError` exactly for a missing account; otherwise its non-negative balance |
| Vault.GetOpenTime | Archive/vault/vault.py:193-203 | `AccountNotExistsError` exactly for a missing account; otherwise its opening time |
| Vault.OpenTimeKept | Archive/vault/vault.py:193-203 | changing a balance never changes any account's opening time |
| Vault.SetBalance | Archive/vault/vault.py:127-144 | one row's balance and update time change, no other row, and the total moves by the difference |
| Vault.Give | Archive/vault/vault.py:233-252 | a missing account or an amount of at most 0 is refused; otherwise the balance and the total grow by the amount and the log gains `(operator, name, amount)` |
| Vault.Take | Archive/vault/vault.py:254-276 | a missing account, an amount of at most 0 or more than the balance is refused; otherwise the balance and the total shrink by the amount and the log gains `-amount` |
| Vault.GiveThenTake | Archive/vault/vault.py:233-276 | taking back what was given succeeds and restores every balance |
| Vault.SetAmount | Archive/vault/vault.py:278-296 | a missing account or a negative amount is refused; otherwise the balance is the amount and the log records the change |
| Vault.TransferCheck | Archive/vault/vault.py:309-313 | a transfer passes exactly when both accounts exist and 0 < amount ≤ the debit's balance, with the source's error for each failure |
| Vault.TransferAsWritten | Archive/vault/vault.py:298-323 | as written both new balances are computed before either is stored; between two accounts money is conserved |
| Vault.SelfTransferCreatesMoney | Archive/vault/vault.py:315-320 | as written a transfer to oneself adds the amount to the balance and to the total |
| Vault.Move | Archive/vault/vault.py:315-321 | the corrected move: the total is conserved, the debit loses and the credit gains the amount, a transfer to oneself changes nothing, nobody else is touched |
| Vault.MoveBalances | Archive/vault/vault.py:315-320 | the balances after storing the debit and then the credit |
| Vault.Transfer | Archive/vault/vault.py:298-323 | the corrected transfer: refused exactly as the checks say, otherwise a move that conserves the total and is logged once |
| Vault.TransferAgrees | Archive/vault/vault.py:298-323 | between two different accounts the code as written and the correction agree |
| Vault.TransferBack | Archive/vault/vault.py:298-323 | a transfer there and back succeeds and restores every balance |
| Vault.Insert | Archive/vault/vault.py:231 | inserting a balance into a descending list keeps it descending and adds exactly that entry |
| Vault.ConsDescending | Archive/vault/vault.py:231 | a list stays descending with a head at least as large as its first entry |
| Vault.Balances | Archive/vault/vault.py:230 | each account name with its balance, in row order |
| Vault.SortDescending | Archive/vault/vault.py:231 | the sort is descending and a permutation of its input |
| Vault.Ranking | Archive/vault/vault.py:225-231 | `get_ranking` is descending and a permutation of the name-balance pairs |
| Vault.RankingContents | Archive/vault/vault.py:225-231 | the ranking lists every account with its balance and nothing else, and its head is the richest |
| ColoredChat.Recolor | ColoredChat/colored_chat/__init__.py:27 | the length is kept; a character changes only into `§` at an `&` followed by a code character and one more character; such an `&` is left alone only when the match just before it swallowed it |
| ColoredChat.Append | ColoredChat/colored_chat/__init__.py:42-46 | the entry `\n<msg>§r` goes last; past 100 entries the oldest is dropped |
| ColoredChat.Last | ColoredChat/colored_chat/__init__.py:50 | Python's `l[-k:]`: the newest k entries, or all when there are fewer |
| ColoredChat.Refresh | ColoredChat/colored_chat/__init__.py:49-50 | the newest entry is always shown; with `force_refresh` a history of up to 100 entries is shown whole, otherwise at most 10 |
| ColoredChat.Handle | ColoredChat/colored_chat/__init__.py:25-39 | every event adds its entry and shows it last; with `force_refresh` the whole history is shown |
| ColoredChat.Load | ColoredChat/colored_chat/__init__.py:18-22 | a non-empty history of the previous instance is kept, anything else starts empty |
| ColoredChat.HistoryBounded | ColoredChat/colored_chat/__init__.py:42-46 | however many events arrive, the history never holds more than 100 entries |
| ColoredChat.NewestLast | ColoredChat/colored_chat/__init__.py:25-46 | after a run of events the newest entry is the last event's |
| ColoredChat.TrailingCodeKept | ColoredChat/colored_chat/__init__.py:27 | `&a` at the very end is not recoloured, since the pattern wants one more character; `&a!` is |
| ColoredChat.OverlapNotRecoloured | ColoredChat/colored_chat/__init__.py:27 | in `&a&b!` the second code is swallowed by the first match and stays as typed |
| LegacyColoredChat.ReplaceAmp | ColoredChat/ColoredChat.py:29 | every `&` becomes `§` and nothing else changes |
| LegacyColoredChat.Append | ColoredChat/ColoredChat.py:47-51 | the entry `<msg>§r` goes last and the history is cut back to its newest 100 entries |
| LegacyColoredChat.Broadcast | ColoredChat/ColoredChat.py:17-30 | the first `msg_length` entries, each after a line break |
| LegacyColoredChat.Handle | ColoredChat/ColoredChat.py:26-44 | something is shown exactly when a player's message holds an `&` code; such a message is stored with every `&` replaced; joins, leaves and deaths add their lines |
| LegacyColoredChat.Load | ColoredChat/ColoredChat.py:20-23 | a non-empty history of the previous instance is kept, anything else starts empty |
| LegacyColoredChat.BroadcastShowsAll | ColoredChat/ColoredChat.py:26-51 | the broadcast after a coloured message shows the whole history and ends with that message |
| LegacyColoredChat.EveryAmpRecoloured | ColoredChat/ColoredChat.py:28-29 | once one code is present every `&` is replaced, unlike the newer plugin which keeps a trailing `&a` |
| LegacyColoredChat.CutBackFromAnyLength | ColoredChat/ColoredChat.py:47-51 | an over-long history is cut back to 100 entries, where the newer plugin only ever drops one |
| Bingo.TeamCount | Bingo/bingo/__init__.py:22-39 | without a number there are 4 teams; a number is accepted exactly when it lies in 1..4 |
| Bingo.SplitOn | Bingo/bingo/__init__.py:42 | `str.split(sep)` always gives at least one piece |
| Bingo.PlayerNames | Bingo/bingo/__init__.py:42 | the names exist exactly when the `list` answer holds `: `; they are the text after the first `: ` split at `, ` |
| Bingo.CeilDiv | Bingo/bingo/__init__.py:44 | `ceil(n / d)` is positive exactly when n is, and never more than n |
| Bingo.Teams | Bingo/bingo/__init__.py:44-47 | at most `num` teams that together are the shuffled list in order, each non-empty, all of `ceil(len / num)` players but the last |
| Bingo.TeamLines | Bingo/bingo/__init__.py:50-52 | a heading and one line per team |
| Bingo.Team | Bingo/bingo/__init__.py:38-52 | a number out of range is refused; a `list` answer without `: ` raises `IndexError`; otherwise the teams of the shuffled players |
| Bingo.End | Bingo/bingo/__init__.py:27-33 | `function flytre:win/all` runs exactly for permission level 2 or more; anyone else gets `§c权限不足！` |
| Bingo.SepAtShift | Bingo/bingo/__init__.py:42 | dropping the first character shifts every occurrence of the separator by one |
| Bingo.SplitOnFirst | Bingo/bingo/__init__.py:42 | the first occurrence of the separator cuts off the first piece |
| Bingo.SplitOnStep | Bingo/bingo/__init__.py:42 | a character that does not start the separator belongs to the first piece |
| Bingo.NoSepShift | Bingo/bingo/__init__.py:42 | no separator before k still holds one character later |
| Bingo.SplitOnNone | Bingo/bingo/__init__.py:42 | text without the separator is one piece |
| Bingo.ChunksConcat | Bingo/bingo/__init__.py:46-47 | the chunks put together are the list |
| Bingo.ChunksSizes | Bingo/bingo/__init__.py:46-47 | there are `ceil(len / size)` chunks, each of at most `size` entries and all but the last full |
| Bingo.CeilDivIsCeiling | Bingo/bingo/__init__.py:44 | `ceil(n / d)` steps of d cover n and one fewer does not |
| Bingo.CeilDivLeast | Bingo/bingo/__init__.py:44 | any number of steps of d that covers n is at least `ceil(n / d)` |
| Bingo.ChunkCount | Bingo/bingo/__init__.py:44-47 | chunks of `ceil(n / num)` players never make more than `num` teams, so `TEAM_NAME[i]` never runs out |
| Bingo.NobodyOnlineOneTeam | Bingo/bingo/__init__.py:42-52 | with nobody online the empty name forms one red team |
| Words.WordLen | src/qq_chat/qq_chat/__init__.py:275 | the leading word ends at the first whitespace |
| Words.SplitWords | src/qq_chat/qq_chat/__init__.py:275 | `split()` gives words without whitespace, as `str.isspace` defines it (Unicode separators included), and none exactly for blank text |
| Words.WordLenOf | src/qq_chat/qq_chat/__init__.py:275 | a word followed by whitespace is read whole |
| Words.SplitWordsCons | src/qq_chat/qq_chat/__init__.py:275 | a word, a blank and more text: the word comes first |
| Words.SplitWordsJoin | src/qq_chat/qq_chat/__init__.py:275 | splitting words joined by single blanks gives the words back |
| Words.SplitWordsSkipsSpaces | src/qq_chat/qq_chat/__init__.py:275 | leading whitespace is skipped |
| MinecraftItem.NormaliseId | Archive/MinecraftItemAPI/MinecraftItemAPI.py:33-36 | the id always carries `minecraft:`; it is unchanged exactly when it already did, otherwise the prefix is added in front |
| MinecraftItem.NormaliseIdIdempotent | Archive/MinecraftItemAPI/MinecraftItemAPI.py:33-36 | normalising twice is normalising once |
| MinecraftItem.NewItem | Archive/MinecraftItemAPI/MinecraftItemAPI.py:26-39 | a new item has a namespaced id, an empty tag, count 1 and slot 0 |
| MinecraftItem.SetTag | Archive/MinecraftItemAPI/MinecraftItemAPI.py:53-353 | a setter stores its value under its key, adds no other key and leaves id, count and slot alone |
| MinecraftItem.SetTagOther | Archive/MinecraftItemAPI/MinecraftItemAPI.py:53-353 | a setter leaves every other key of the tag as it was |
| MinecraftItem.SetCount | Archive/MinecraftItemAPI/MinecraftItemAPI.py:43-46 | only the count changes |
| MinecraftItem.SetSlot | Archive/MinecraftItemAPI/MinecraftItemAPI.py:48-51 | only the slot changes |
| MinecraftItem.SetTags | Archive/MinecraftItemAPI/MinecraftItemAPI.py:53-56 | `Tags` reads back as the given strings |
| MinecraftItem.SetLodestonePos | Archive/MinecraftItemAPI/MinecraftItemAPI.py:347-354 | `LodestonePos` is a compound of exactly `x`, `y` and `z` holding the coordinates |
| MinecraftItem.Flag | Archive/MinecraftItemAPI/MinecraftItemAPI.py:65-68 | NBT's 1 for true and 0 for false |
| MinecraftItem.SetFlag | Archive/MinecraftItemAPI/MinecraftItemAPI.py:65-68 | a stored flag reads back as the boolean given |
| MinecraftItem.SetUnbreakable | Archive/MinecraftItemAPI/MinecraftItemAPI.py:65-68 | `Unbreakable` reads back as the boolean given |
| MinecraftItem.SetCharged | Archive/MinecraftItemAPI/MinecraftItemAPI.py:244-247 | `Charged` reads back as the boolean given |
| MinecraftItem.SetLodestoneTracked | Archive/MinecraftItemAPI/MinecraftItemAPI.py:337-340 | `LodestoneTracked` reads back as the boolean given |
| MinecraftItem.TargetIds | Archive/MinecraftItemAPI/MinecraftItemAPI.py:75-80 | strings are kept and items give their ids, in order; anything else is skipped |
| MinecraftItem.SetCanDestroy | Archive/MinecraftItemAPI/MinecraftItemAPI.py:70-81 | `CanDestroy` reads back as the targets' ids |
| MinecraftItem.SetCanPlaceOn | Archive/MinecraftItemAPI/MinecraftItemAPI.py:139-150 | `CanPlaceOn` reads back as the targets' ids |
| MinecraftItem.SetDisplay | Archive/MinecraftItemAPI/MinecraftItemAPI.py:93-123 | a `display` that is not a compound raises `TypeError`; otherwise the key is set inside `display` and nothing else changes, inside or outside it |
| MinecraftItem.ShiftLeftIsMultiplication | Archive/MinecraftItemAPI/MinecraftItemAPI.py:226 | `x << 8` and `x << 16` are multiplications by 256 and 65536 |
| MinecraftItem.ShiftColor | Archive/MinecraftItemAPI/MinecraftItemAPI.py:220-226 | the shifts of `set_custom_potion_color` pack the colour as `set_color` does |
| MinecraftItem.ColorUnpacks | Archive/MinecraftItemAPI/MinecraftItemAPI.py:88-95 | for components in 0..255 the packed colour is a 24-bit number from which each component reads back |
| MinecraftItem.SetColor | Archive/MinecraftItemAPI/MinecraftItemAPI.py:88-96 | the packed colour lands in `display.color`, unless `display` is not a compound |
| MinecraftItem.SetCustomPotionColor | Archive/MinecraftItemAPI/MinecraftItemAPI.py:220-227 | `CustomPotionColor` holds the packed colour |
| MinecraftItem.SetName | Archive/MinecraftItemAPI/MinecraftItemAPI.py:98-109 | `display.Name` holds the rendered name, unless `display` is not a compound |
| MinecraftItem.SetLore | Archive/MinecraftItemAPI/MinecraftItemAPI.py:111-124 | `display.Lore` holds every line rendered, in order, unless `display` is not a compound |
| MinecraftItem.SumAppend | Archive/MinecraftItemAPI/MinecraftItemAPI.py:131-133 | the flag sum of two runs of flags adds up |
| MinecraftItem.SetHideFlags | Archive/MinecraftItemAPI/MinecraftItemAPI.py:126-135 | `HideFlags` is the sum of the flags |
| MinecraftItem.HideFlagsOrderFree | Archive/MinecraftItemAPI/MinecraftItemAPI.py:126-135 | the order the flags are given in does not matter |
| MinecraftItem.HideFlagsBits | Archive/MinecraftItemAPI/MinecraftItemAPI.py:126-135 | each of the six `HideFlags` constants, given at most once, can be read back from its bit of the sum |
| MinecraftItem.Sum6 | Archive/MinecraftItemAPI/MinecraftItemAPI.py:131-133 | the sum of six flags |
| MinecraftItem.FlagBits | Archive/MinecraftItemAPI/MinecraftItemAPI.py:405-412 | six binary digits read back from their weighted sum |
| MinecraftItem.Enchantment | Archive/MinecraftItemAPI/MinecraftItemAPI.py:1020-1021 | an enchantment is a compound of exactly `id` and `lvl` |
| MinecraftItem.AppendedLast | Archive/MinecraftItemAPI/MinecraftItemAPI.py:165-175 | what is appended to a list is its last entry |
| MinecraftItem.AppendTo | Archive/MinecraftItemAPI/MinecraftItemAPI.py:165-175 | a missing list is started; a key holding something else raises `AttributeError`; otherwise the entry goes last and no other key changes |
| MinecraftItem.AddEnchantment | Archive/MinecraftItemAPI/MinecraftItemAPI.py:165-175 | the new enchantment is the last entry of `Enchantments`, unless that key holds something else |
| MinecraftItem.SetEnchantments | Archive/MinecraftItemAPI/MinecraftItemAPI.py:177-185 | `Enchantments` is exactly the given list |
| MinecraftItem.Effect | Archive/MinecraftItemAPI/MinecraftItemAPI.py:315-320 | a stew effect is a compound of exactly `EffectId` and `EffectDuration` |
| MinecraftItem.AddEffect | Archive/MinecraftItemAPI/MinecraftItemAPI.py:311-321 | the new effect is the last entry of `Effects`, unless that key holds something else |
| MinecraftItem.AddDebugProperty | Archive/MinecraftItemAPI/MinecraftItemAPI.py:325-333 | the block's namespaced id maps to the state inside `DebugProperty`, unless that key holds something else |
| MinecraftItem.ConvertStoredEnchantments | Archive/MinecraftItemAPI/MinecraftItemAPI.py:187-191 | without `Enchantments` it raises `KeyError`; otherwise the list moves to `StoredEnchantments` and nothing else changes |
| MinecraftItem.EnchantedBook | Archive/MinecraftItemAPI/MinecraftItemAPI.py:165-191 | one enchantment added and converted ends up as the only stored enchantment |
| MinecraftItem.ToJsonObject | Archive/MinecraftItemAPI/MinecraftItemAPI.py:362-369 | exactly the keys `Slot`, `id`, `Count` and `tag` |
| MinecraftItem.JsonObjectRoundTrip | Archive/MinecraftItemAPI/MinecraftItemAPI.py:362-369 | the four keys hold the whole item: it can be read back |
| MinecraftItem.ProjectileJson | Archive/MinecraftItemAPI/MinecraftItemAPI.py:238-241 | an item projectile is stored as its JSON object, from which it reads back |
| MinecraftItem.SetChargedProjectiles | Archive/MinecraftItemAPI/MinecraftItemAPI.py:231-242 | `ChargedProjectiles` lists one entry per projectile, each item reading back as itself |
| OnlinePlayers.Join | src/online_player_api/online_player_api/__init__.py:17-19 | a listed player is not added again; anyone else is appended |
| OnlinePlayers.IndexOf | src/online_player_api/online_player_api/__init__.py:24 | the first place the player is listed |
| OnlinePlayers.RemoveFirst | src/online_player_api/online_player_api/__init__.py:24 | `list.remove` drops exactly the first occurrence and keeps the order of the rest |
| OnlinePlayers.Stop | src/online_player_api/online_player_api/__init__.py:12-14 | a server stop empties the list |
| OnlinePlayers.Load | src/online_player_api/online_player_api/__init__.py:6-9 | the previous instance's list is carried over when it has one, otherwise the list starts empty |
| OnlinePlayers.EventsKeepNoDuplicates | src/online_player_api/online_player_api/__init__.py:12-24 | no run of joins, leaves and stops ever lists a player twice |
| OnlinePlayers.JoinKeeps | src/online_player_api/online_player_api/__init__.py:17-29 | after a join the player is online, nobody else's status changes, and nobody is listed twice |
| OnlinePlayers.LeaveKeeps | src/online_player_api/online_player_api/__init__.py:22-29 | after a leave the player is offline, nobody else's status changes, and the list shrinks by one exactly when the player was listed |
| OnlinePlayers.JoinLeave | src/online_player_api/online_player_api/__init__.py:17-24 | a join followed by the same player's leave restores the list |
| OnlinePlayers.JoinWith | Archive/OnlinePlayerAPI/OnlinePlayerAPI.py:44 | joining no names gives the empty text and one name gives that name |
| OnlinePlayers.AfterCallerEdit | src/online_player_api/online_player_api/__init__.py:32-34 | with a copy the caller's change leaves the plugin's list alone; without one it becomes the plugin's list |
| OnlinePlayers.LiveListBreaksInvariant | Archive/OnlinePlayerAPI/OnlinePlayerAPI.py:53-55 | through the older version's live list a caller can list a player twice; through the newer version's copy it cannot |
| Language.NewLanguage | src/.archived/LanguageAPI/LanguageAPI.py:31-37 | the table is kept; a given language becomes current; without one the first in the table does, and an empty table raises `IndexError` |
| Language.SetLanguage | src/.archived/LanguageAPI/LanguageAPI.py:39-45 | the current language is set without checking that it exists |
| Language.GetMsgStr | src/.archived/LanguageAPI/LanguageAPI.py:47-62 | the language asked for, or the current one, must exist, else `LanguageNotExistError`; then the message must, else `MessageNotFindError`; a result is the stored message |
| Language.Lookup | src/.archived/LanguageAPI/LanguageAPI.py:64-70 | `language[msg_id]` is `get_msg_str` in the current language |
| Language.CurrentIsDefault | src/.archived/LanguageAPI/LanguageAPI.py:54-70 | naming the current language explicitly changes nothing |
| Language.UnknownLanguageDeferred | src/.archived/LanguageAPI/LanguageAPI.py:39-58 | setting an unknown language succeeds and fails only at the next lookup |
| Language.DefaultIsFirst | src/.archived/LanguageAPI/LanguageAPI.py:31-62 | without a language, lookups use the first language of the table |
| Versions.ParseAll | qq_api/qq_api/functions.py:18 | `int(x)` of every component, failing exactly when one of them is not an integer |
| Versions.SplitVersion | qq_api/qq_api/functions.py:17-18 | a parsed version has at least one component |
| Versions.Cmp | qq_api/qq_api/functions.py:20-26 | -1, 0 or 1 exactly as the first number is smaller, equal or larger |
| Versions.CompareParts | qq_api/qq_api/functions.py:30-34 | the answer is -1, 0 or 1, 0 exactly for equal versions, decided at the first differing component or else by length |
| Versions.CompareAntisymmetric | qq_api/qq_api/functions.py:30-34 | swapping the versions flips the answer |
| Versions.CompareTransitive | qq_api/qq_api/functions.py:30-34 | the order is transitive |
| Versions.PrefixIsOlder | qq_api/qq_api/functions.py:30-34 | a version is older than any longer version it is a prefix of, so `1.0` is older than `1.0.0` |
| Versions.VersionCompare | qq_api/qq_api/functions.py:15-34 | `ValueError` exactly when either version has a non-integer component; otherwise 0 exactly when both parse to the same numbers |
| Versions.VersionAntisymmetric | qq_api/qq_api/functions.py:15-34 | swapping the versions flips the answer and keeps an error an error |
| Versions.SuffixIgnored | qq_api/qq_api/functions.py:18 | a tag after `-` is ignored: `1.0.0-beta` parses as `1.0.0` |
| CommandNodes.Tokens | src/more_command_nodes/more_command_nodes/__init__.py:40-44 | the non-empty pieces between blanks, in order |
| CommandNodes.ScanPieces | src/more_command_nodes/more_command_nodes/__init__.py:37-47 | the scan looks at no more pieces than there are, and at least one when there is one |
| CommandNodes.ScanUnfold | src/more_command_nodes/more_command_nodes/__init__.py:40-47 | one step of the scan: an empty piece counts one character, a word its length and the blank, and the scan stops once enough words are read |
| CommandNodes.ScanText | src/more_command_nodes/more_command_nodes/__init__.py:37-47 | the loop collects the scan's words and counts its characters |
| CommandNodes.ToFloats | src/more_command_nodes/more_command_nodes/__init__.py:53-55 | `float()` of every word, failing exactly when one of them fails |
| CommandNodes.ParseFloats | src/more_command_nodes/more_command_nodes/__init__.py:34-57 | `FloatsArgument.parse` is the scan, then `IncompleteFloat` when too few words were read, then `IllegalFloat` when one does not convert |
| CommandNodes.ParsePosition | src/more_command_nodes/more_command_nodes/__init__.py:60-66 | a `Position` reads three floats, and is incomplete exactly when the text holds fewer than three words |
| CommandNodes.ParseFacing | src/more_command_nodes/more_command_nodes/__init__.py:69-75 | a `Facing` reads two floats, and is incomplete exactly when the text holds fewer than two words |
| CommandNodes.ScanTokens | src/more_command_nodes/more_command_nodes/__init__.py:40-47 | the scan keeps the first `number` words, or all of them when there are fewer |
| CommandNodes.ScanWidth | src/more_command_nodes/more_command_nodes/__init__.py:38-45 | the characters read are those of the pieces looked at, joined by blanks |
| CommandNodes.JoinTake | src/more_command_nodes/more_command_nodes/__init__.py:38-45 | a join splits at any piece boundary |
| CommandNodes.FloatsRead | src/more_command_nodes/more_command_nodes/__init__.py:34-57 | on success the characters read end at a blank or at the end of the text, cover exactly the first `number` words, and the values are those words converted |
| CommandNodes.SplitJoin | src/more_command_nodes/more_command_nodes/__init__.py:37 | splitting a join of blank-free pieces gives the pieces back |
| CommandNodes.TokensTake | src/more_command_nodes/more_command_nodes/__init__.py:40-47 | the words of the pieces looked at are the ones kept |
| CommandNodes.IncompleteBeforeIllegal | src/more_command_nodes/more_command_nodes/__init__.py:50-55 | `IncompleteFloat` is raised exactly when there are too few words, even when a word would not convert |
| CommandNodes.Element | src/more_command_nodes/more_command_nodes/__init__.py:92 | the argument is the text up to the first blank |
| CommandNodes.ByValue | src/more_command_nodes/more_command_nodes/__init__.py:94 | `enum_class(value)` is the first member with that value, if any |
| CommandNodes.FirstWithValue | src/more_command_nodes/more_command_nodes/__init__.py:94 | the first member with that value, if any |
| CommandNodes.ParseEnum | src/more_command_nodes/more_command_nodes/__init__.py:91-98 | `InvalidEnumeration` exactly when no member has the argument as its value; otherwise that member, with the argument's length read |
| CommandNodes.Suggestions | src/more_command_nodes/more_command_nodes/__init__.py:88-89 | the suggestions are exactly the members' values |
| CommandNodes.SuggestFrom | src/more_command_nodes/more_command_nodes/__init__.py:88-89 | each value is suggested once |
| CommandNodes.SuggestionsAccepted | src/more_command_nodes/more_command_nodes/__init__.py:88-98 | every blank-free suggestion parses back to a member with that value |
| CommandNodes.ElementWhole | src/more_command_nodes/more_command_nodes/__init__.py:92 | a blank-free text is read whole |
| DictNodes.FindKey | src/dict_command_registration/dict_command_registration/node.py:15-63 | where a key first occurs in the dict, if anywhere |
| DictNodes.GetOr | src/dict_command_registration/dict_command_registration/node.py:15-63 | `d.get(k, default)`: the stored value, or the default when the key is missing |
| DictNodes.AllOk | src/dict_command_registration/dict_command_registration/node.py:62-64 | the children are built in order and the first failure is the result |
| DictNodes.BuildNode | src/dict_command_registration/dict_command_registration/node.py:11-64 | a non-dict raises `AttributeError`; a missing or `None` name raises `MissingRequiredAttribute("name")`; then the children's error, or the node with its children |
| DictNodes.ReadChildren | src/dict_command_registration/dict_command_registration/node.py:62-64 | without `children` there are none |
| DictNodes.NodeFrom | src/dict_command_registration/dict_command_registration/node.py:14-59 | the attributes are read with their defaults and the children kept |
| DictNodes.Instantiate | src/dict_command_registration/dict_command_registration/node.py:71-89 | a `NodeType` always instantiates, and a literal type gives a `Literal` of the literal |
| DictNodes.RequiresOf | src/dict_command_registration/dict_command_registration/node.py:95-105 | `None` adds no requirement, a list adds its entries, a callable adds itself; anything else raises `TypeError` |
| DictNodes.HandlerOf | src/dict_command_registration/dict_command_registration/node.py:115-129 | an error handler comes from a dict with the defaults `CommandError`, a no-op and `False`; `None` gives none; anything else fails |
| DictNodes.ToMcdr | src/dict_command_registration/dict_command_registration/node.py:70-142 | a given node is returned as it is; otherwise the node is built with one converted child per child, and a bad `requires` raises `TypeError` |
| DictNodes.NameOnlyDefaults | src/dict_command_registration/dict_command_registration/node.py:11-64 | a dict with only a name reads as a literal of that name with every other default |
| DictNodes.BuildDefaults | src/dict_command_registration/dict_command_registration/node.py:23-41 | a missing `literal` defaults to the name, `type` to `NodeType.LITERAL`, and `enumeration`, `args` and `kwargs` to empty ones |
| DictNodes.ChildrenInOrder | src/dict_command_registration/dict_command_registration/node.py:62-64 | the children are read exactly when each child reads, one node per entry in order |
| DictNodes.ListedChildren | src/dict_command_registration/dict_command_registration/node.py:62-64 | the built children agree one for one with the listed entries |
| DictNodes.NodeKeysDistinct | src/dict_command_registration/dict_command_registration/node.py:15-63 | the attribute keys are distinct |
| DictNodes.FindAt | src/dict_command_registration/dict_command_registration/node.py:15-63 | a key occurring once is found where it is |
| DictNodes.DumpNode | src/dict_command_registration/dict_command_registration/node.py:15-63 | a node written back as a dict lists every attribute key in order |
| DictNodes.DumpRoundTrip | src/dict_command_registration/dict_command_registration/node.py:11-64 | reading a node written back as a dict gives the node, children included |
| DictNodes.ChildrenReadBack | src/dict_command_registration/dict_command_registration/node.py:62-64 | once each child reads back, the children of a written-back node do |
| DictNodes.ChildrenEntry | src/dict_command_registration/dict_command_registration/node.py:62-64 | a written-back node lists its written-back children under `children` |
| DictNodes.ReadListed | src/dict_command_registration/dict_command_registration/node.py:62-64 | the children are built from the listed entries |
| DictNodes.DumpKeys | src/dict_command_registration/dict_command_registration/node.py:15-63 | every attribute of a written-back node is found at its own place |
| DictNodes.DumpFields | src/dict_command_registration/dict_command_registration/node.py:14-59 | reading the attributes of a written-back node gives the node's own |
| DictNodes.GivenNodeIgnoresRest | src/dict_command_registration/dict_command_registration/node.py:96-105 | with `node` given a bad `requires` is never looked at; without it the same value raises `TypeError` |
| Markup.EntityOf | src/im_api/im_api/models/parser.py:15-16 | the entity a character is written as, if it is one of `& < > "` |
| Markup.EncPlain | src/im_api/im_api/models/parser.py:14-16 | with nothing encoded a string is written as itself |
| Markup.EncExcludes | src/im_api/im_api/models/parser.py:15-16 | once `<`, `>` or `"` is encoded the character no longer occurs |
| Markup.EncodeStep | src/im_api/im_api/models/parser.py:15-16 | each `replace` of `escape`, in its order, encodes one more character of the text |
| Markup.DecodeStep | src/im_api/im_api/models/parser.py:20 | each `replace` of `unescape` decodes one entity while `&` is still encoded |
| Markup.Escape | src/im_api/im_api/models/parser.py:14-16 | the result holds no `<` or `>`, and inline no `"`; text without the special characters is returned as it is |
| Markup.EscapeIsEnc | src/im_api/im_api/models/parser.py:14-16 | the chain of replacements writes every special character as its entity, `&` included, in one pass |
| Markup.RefDigitRun | src/im_api/im_api/models/parser.py:21-22 | the run of `\d` or `[0-9a-f]` digits is maximal |
| Markup.NumericRef | src/im_api/im_api/models/parser.py:21-22 | a numeric reference is `&#` (or `&#x`), a non-empty run of digits, then `;` |
| Markup.HexDigitValue | src/im_api/im_api/models/parser.py:22 | a hex digit's value is below 16 |
| Markup.Chr | src/im_api/im_api/models/parser.py:21-22 | `chr` succeeds exactly on a code point outside the surrogates and below 0x110000 |
| Markup.NumericPassPlain | src/im_api/im_api/models/parser.py:21-22 | text without `&` holds no reference and passes through |
| Markup.AmpPassPlain | src/im_api/im_api/models/parser.py:23 | text without `&` passes the last substitution unchanged |
| Markup.NoAmpStart | src/im_api/im_api/models/parser.py:23 | text not starting with `&` starts none of `&amp;`, `&#38;`, `&#x26;` |
| Markup.Unescape | src/im_api/im_api/models/parser.py:19-23 | text without `&` is returned as it is |
| Markup.UnescapePlain | src/im_api/im_api/models/parser.py:19-23 | every pass of `unescape` leaves text without `&` alone |
| Markup.NumericPassEnc | src/im_api/im_api/models/parser.py:21-22 | once only `&` is encoded the numeric passes find nothing |
| Markup.AmpPassEnc | src/im_api/im_api/models/parser.py:23 | once only `&` is encoded the last pass restores the text |
| Markup.UnescapeEscape | src/im_api/im_api/models/parser.py:14-23 | `unescape(escape(s, inline)) == s` for either setting of `inline` |
| Markup.CamelCase | src/im_api/im_api/models/parser.py:30-31 | a text starts as before, or with the capital of a letter after a separator, and no `_x` or `-x` with a lower-case x is left |
| Markup.CamelCaseFixed | src/im_api/im_api/models/parser.py:30-31 | `camel_case` changes a text exactly when it holds such a pair, and is idempotent |
| Markup.CamelCaseKeeps | src/im_api/im_api/models/parser.py:30-31 | a text without such a pair is kept |
| Markup.Uncapitalize | src/im_api/im_api/models/parser.py:26-27 | the empty text raises `IndexError`; otherwise the length is kept and the first character is not upper-case |
| Markup.SubstChar | src/im_api/im_api/models/parser.py:36 | `replace` of one character by another, position by position |
| Markup.UpperRun | src/im_api/im_api/models/parser.py:36 | the run of capitals `[A-Z]+` matches is maximal |
| Markup.HyphenateCapitals | src/im_api/im_api/models/parser.py:35-37 | only hyphens and lower-case letters are added; a text without a line break and not starting with a capital comes out without capitals |
| Markup.ParamCase | src/im_api/im_api/models/parser.py:34-37 | the empty text raises `IndexError`; otherwise no `_` is left and, without line breaks, no capital |
| Markup.HyphenateCamel | src/im_api/im_api/models/parser.py:30-37 | `camel_case` undoes the hyphenation of a camel-case text without runs of capitals |
| Markup.CamelCaseParamCase | src/im_api/im_api/models/parser.py:30-37 | `camel_case(param_case(k)) == k` for a camel-case attribute name |
| Markup.FirstCombinator | src/im_api/im_api/models/parser.py:158 | the first of ` >+~` |
| Markup.SpaceRun | src/im_api/im_api/models/parser.py:158 | the run of blanks ` *` matches is maximal |
| Markup.SearchCombinator | src/im_api/im_api/models/parser.py:158-165 | `comb_pat.search` finds a match exactly when the query holds a combinator; it starts at the blanks before the first one |
| Markup.Group | src/im_api/im_api/models/parser.py:162-176 | `_quert` gives at least one step, the first with the given combinator and the rest with one of ` >+~` |
| Markup.GroupKindAt | src/im_api/im_api/models/parser.py:162-176 | a step's type holds no combinator and only characters of the query |
| Markup.ParseSelector | src/im_api/im_api/models/parser.py:161-177 | one group per comma-separated part, each starting with the descendant combinator, no type holding a comma |
| Markup.GroupUnparse | src/im_api/im_api/models/parser.py:162-176 | splitting a query written from well-formed steps gives the steps back |
| Markup.SearchAt | src/im_api/im_api/models/parser.py:158-165 | a combinator between two names is found where it stands |
| Markup.GroupStep | src/im_api/im_api/models/parser.py:165-173 | at each match the step before it is taken and the rest of the query continues with the match's combinator |
| MarkupTree.MakeElement | src/im_api/im_api/models/parser.py:56-64 | an element is kept as it is; `None` gives nothing; the empty string raises `ValueError`, and nothing else does; any other scalar becomes a text element whose dump is its `str`, escaped unless stripped |
| MarkupTree.MakeAll | src/im_api/im_api/models/parser.py:67-72 | `make_elements` raises exactly when the list holds an empty string; otherwise it drops what gives nothing and keeps elements as they are, in order |
| MarkupTree.MakeFragments | src/im_api/im_api/models/parser.py:97-98 | the children of several fragments raise exactly when some fragment holds an empty string |
| MarkupTree.EmptyTextRaises | src/im_api/im_api/models/parser.py:61-64 | an empty string between two other contents makes `make_elements` raise `ValueError`, where the two alone succeed |
| MarkupTree.InitAttrs | src/im_api/im_api/models/parser.py:88-95 | a truthy `children` attribute is refused as a list of children; otherwise the keys are those given with a value, camel-cased, and `None` values are dropped |
| MarkupTree.TextRule | src/im_api/im_api/models/parser.py:102-106 | a text element's `content` becomes its `text`, and one with no attributes gets `text` \"\" |
| MarkupTree.Init | src/im_api/im_api/models/parser.py:81-106 | `Element(type, attrs, *children)` raises exactly when a `children` attribute is truthy or a child fragment holds an empty string; otherwise the type and the children made from the fragments, and for a text element a `text` exactly when `text` or `content` was given or nothing was |
| MarkupTree.RenderAttr | src/im_api/im_api/models/parser.py:118-126 | `None` renders nothing; an empty name fails in `param_case`; a name or quoted value holds no `<` that was not in the key, and a quoted value holds no `"` |
| MarkupTree.Tokens | src/im_api/im_api/models/parser.py:117-128 | the attributes render exactly when every one with a value has a non-empty name, and without `<` in the names no token holds one |
| MarkupTree.TokensText | src/im_api/im_api/models/parser.py:128 | tokens without `<` render to text without `<` |
| MarkupTree.Attributes | src/im_api/im_api/models/parser.py:117-128 | with names free of `<` the rendered attributes hold none |
| MarkupTree.LeafText | src/im_api/im_api/models/parser.py:131-132 | a text element's dump is its text when stripped, and otherwise the escaped text, free of `<`, which unescapes back to the text |
| MarkupTree.Dumps | src/im_api/im_api/models/parser.py:130-140 | an element that is not a text leaf dumps to `<` and its tag first |
| MarkupTree.DumpsTagCount | src/im_api/im_api/models/parser.py:130-140 | with names free of `<` a dump holds exactly one `<` per tag it writes, so escaped text never opens a tag |
| MarkupTree.DumpsAllTagCount | src/im_api/im_api/models/parser.py:133 | the same for a run of children |
| MarkupTree.ReadAttrAsWritten | src/im_api/im_api/models/parser.py:319-328 | as written an empty quoted value is read as a bare flag, since `"" or None` is `None` |
| MarkupTree.ReadFlag | src/im_api/im_api/models/parser.py:325-328 | a bare `no-name` reads `name` as `False`; any other bare name reads as `True` |
| MarkupTree.ReadAttr | src/im_api/im_api/models/parser.py:319-328 | the corrected reading: a quoted value, empty or not, is text and is read exactly when it unescapes |
| MarkupTree.EmptyValueReadsTrue | src/im_api/im_api/models/parser.py:314-329 | `title=""` is written for an empty title and read back as `True` as written, as the empty text once corrected |
| MarkupTree.NoCapitalsKept | src/im_api/im_api/models/parser.py:36 | text with no capitals is not hyphenated |
| MarkupTree.AttrRoundTrip | src/im_api/im_api/models/parser.py:314-329 | an attribute with a camel-case name renders to a token that reads back under the same name with the same value |
| MarkupTree.ReadTag | src/im_api/im_api/models/parser.py:314-329 | reading the tokens of a tag keeps earlier entries and adds only ones with a value |
| MarkupTree.ParamKeys | src/im_api/im_api/models/parser.py:118-121 | each attribute under its hyphenated name |
| MarkupTree.ReadRendered | src/im_api/im_api/models/parser.py:314-329 | reading the rendered tokens gives the attributes under their hyphenated names, in order |
| MarkupTree.InitParamKeys | src/im_api/im_api/models/parser.py:88-95 | the constructor camel-cases hyphenated names back |
| MarkupTree.ParseRenderedAttrs | src/im_api/im_api/models/parser.py:314-336 | an element's attributes, rendered into a tag and read back by the parser and the constructor, are the element's own |
| MarkupTree.NoPrefixedFlagFlips | src/im_api/im_api/models/parser.py:314-329 | an attribute `noX` set to `True` renders as `no-x` and reads back as `x` set to `False` |
| Elements.Names | src/im_api/im_api/models/element.py:110-462 | the `__names__` tables, with `Sharp` naming its two fields; every other class as written |
| Elements.NamesAreFields | src/im_api/im_api/models/element.py:100-497 | every name a class lists is one of its fields, and no class has a field twice |
| Elements.FieldOfName | src/im_api/im_api/models/element.py:100-497 | each listed name has a field of that name |
| Elements.Coerce | src/im_api/im_api/models/element.py:43-50 | a string field or a value that is not text is kept; a bool field accepts exactly `true` or `false` in any case; an int field exactly an integer; `None` stays `None` |
| Elements.CoerceStr | src/im_api/im_api/models/element.py:43-50 | the text `str` writes for a field's value is read back as that value |
| Elements.Part | src/im_api/im_api/models/element.py:35-36 | the entries whose key is, or is not, among the names: nothing added, none lost on its side |
| Elements.DropNil | src/im_api/im_api/models/element.py:52 | exactly the entries whose value is not `None` |
| Elements.FieldValues | src/im_api/im_api/models/element.py:40-51 | the fields are coerced in order, failing exactly when one of them fails |
| Elements.Construct | src/im_api/im_api/models/element.py:34-52 | a missing required field raises `TypeError`; the other attributes are kept as given and each named field holds its coerced value |
| Elements.ConstructKeeps | src/im_api/im_api/models/element.py:36 | the attributes that are not names are kept |
| Elements.ConstructFacts | src/im_api/im_api/models/element.py:40-52 | each named field holds its coerced value |
| Elements.Unpack | src/im_api/im_api/models/element.py:33-37 | a class without a names table raises `AttributeError` when given any attribute; with no attribute, or with a names table, a missing required field is `TypeError`; otherwise an element of the class without children, keeping the other attributes and holding each named field coerced |
| Elements.GetOfEntry | src/im_api/im_api/models/element.py:35-36 | in a dict without repeated keys, an entry is what lookup finds |
| Elements.TextElem | src/im_api/im_api/models/element.py:101-108 | a `Text` dumps to its text when stripped, and otherwise to text that unescapes back to it |
| Elements.Elems | src/im_api/im_api/models/element.py:89 | strings become `Text` children and elements are kept, in order |
| Elements.Nodes | src/im_api/im_api/models/element.py:89 | any run of children can be given as content |
| Elements.Call | src/im_api/im_api/models/element.py:88-91 | the content is appended exactly when the class allows the children: a link or button at most one `Text`, a `br` none |
| Elements.Quoted | src/im_api/im_api/models/element.py:54-63 | an attribute with an escaped value holds exactly two quotes, and no `<` when its name holds none |
| Elements.QuoteCount | src/im_api/im_api/models/element.py:63 | the two quotes round the value |
| Elements.TargetOf | src/im_api/im_api/models/element.py:441-446 | the attribute a button's type names, escaped for an attribute |
| Elements.ButtonAttributesAsWritten | src/im_api/im_api/models/element.py:439-449 | as written the attributes render exactly when the type is text, escaping each `key="value"` whole without quotes |
| Elements.CountThree | src/im_api/im_api/models/element.py:449 | quote counts add up over concatenation |
| Elements.ButtonAttributes | src/im_api/im_api/models/element.py:439-449 | the corrected rendering: two quotes per attribute and no `<` |
| Elements.Dumps | src/im_api/im_api/models/element.py:67-69 | a `Text` dumps as the parser's text leaf does, its text as is when stripped and escaped otherwise |
| Elements.DumpsButton | src/im_api/im_api/models/element.py:67-76 | a button dumps its children when stripped; otherwise its tag and the attributes of the chosen reading open the text, and a button whose `type` is not a string raises |
| Elements.ButtonDumpQuotes | src/im_api/im_api/models/element.py:439-449 | an action button with id `a"b` dumps with five `"` as written and four when repaired |
| Elements.ToRaw | src/im_api/im_api/models/element.py:18-76 | the untyped element with the same tag, attributes and children |
| Elements.DumpsAgree | src/im_api/im_api/models/element.py:67-76 | an element that is not a button dumps as the untyped element with its tag and attributes does |
| Elements.DumpsAllAgree | src/im_api/im_api/models/element.py:70 | the same for a run of elements |
| Elements.ButtonQuoteBreaks | src/im_api/im_api/models/element.py:439-449 | as written an action button's id adds its own quotes to the four of the tag; corrected there are four |
| Elements.ActionAsWritten | src/im_api/im_api/models/element.py:440-442 | an action button without a theme renders its type and its id |
| Elements.IdAsWritten | src/im_api/im_api/models/element.py:442 | the id attribute as written holds two quotes plus the id's own |
| Elements.ButtonQuoteExample | src/im_api/im_api/models/element.py:439-449 | `id` of `a"b` renders with five quotes as written |
| Elements.ElementType | src/im_api/im_api/models/element.py:504-514 | `ELEMENT_TYPE_MAP`: `text` and only `text` is a `Text`, and every entry is a content class |
| Elements.StyleType | src/im_api/im_api/models/element.py:516-540 | `STYLE_TYPE_MAP`: every entry is a style class or `br` |
| Elements.ClassFor | src/im_api/im_api/models/element.py:543-570 | the class `transform` picks: `Text` exactly for `text`, never an abstract base, and a custom element keeps its tag |
| Elements.ClassForTag | src/im_api/im_api/models/element.py:504-570 | every class's own tag is converted back into that class |
| Elements.NewlineIsBr | src/im_api/im_api/models/element.py:563-564 | `newline` becomes a `br` |
| Elements.CustomElem | src/im_api/im_api/models/element.py:468-483 | a custom element of the type, without children, holding `type` and the attributes given |
| Elements.Make | src/im_api/im_api/models/element.py:547-570 | the unpacked element has the class for its tag and no children yet |
| Elements.TransformOne | src/im_api/im_api/models/element.py:545-570 | a converted element has the class for its tag and allowed children, one per child except for `newline` |
| Elements.Transform | src/im_api/im_api/models/element.py:543-571 | `transform` converts each element in turn, in order, to the class for its tag |
| Elements.SharpFails | src/im_api/im_api/models/element.py:136-141 | as written no `<sharp>` can be converted: with attributes `unpack` raises `AttributeError` on the missing names table, and without any it raises `TypeError` for the missing `id` |
| Elements.SharpConverts | src/im_api/im_api/models/element.py:543-571 | with the table fixed a `<sharp>` with an id converts, keeping its id and name |
| Elements.SharpUnpacks | src/im_api/im_api/models/element.py:33-37 | with the table fixed `Sharp.unpack` keeps the id and the name |
| Elements.StripAgrees | src/im_api/im_api/models/element.py:543-571 | a stripped dump of a converted tree is that of the parsed tree |
| Elements.StripAgreesAll | src/im_api/im_api/models/element.py:543-571 | the same for a forest |
| Elements.TagOfIsText | src/im_api/im_api/models/element.py:487-488 | only `Text` and a custom `text` have the tag `text` |
| Elements.Flatten | src/im_api/im_api/models/element.py:591-597 | every element of a forest in document order, each before its children |
| Elements.Instances | src/im_api/im_api/models/element.py:593 | only instances of the class |
| Elements.InstancesAppend | src/im_api/im_api/models/element.py:593 | instances of two runs add up |
| Elements.SelectFindsInstances | src/im_api/im_api/models/element.py:582-597 | selecting a class finds exactly its instances, in document order |
| ImModels.SpecRanked | src/im_api/im_api/models/model.py:18-32 | every class nests only classes of lower rank, so reading a record always terminates |
| ImModels.EnumOf | src/im_api/im_api/models/model.py:38-43 | an enum converter yields a member below the enum's size, and an integer in range becomes exactly that member |
| ImModels.TimeOf | src/im_api/im_api/models/model.py:278 | a timestamp converter yields a timestamp, and an integer is kept as its milliseconds |
| ImModels.PreviewRaw | src/im_api/im_api/models/model.py:326-332 | a truthy user, or a missing self id, leaves the raw login as it is; otherwise the user becomes `{"id": self_id}`; no key is added or removed |
| ImModels.Converted | src/im_api/im_api/models/model.py:26-31 | the converted list has one entry per field, present exactly when the raw object has that field's name |
| ImModels.ConvertedAt | src/im_api/im_api/models/model.py:27-29 | each present field holds what its converter makes of the raw value |
| ImModels.ConvertedOk | src/im_api/im_api/models/model.py:26-31 | when every present field converts, the whole conversion succeeds |
| ImModels.Fill | src/im_api/im_api/models/model.py:32 | `cls(**data)` raises `TypeError` exactly when some field has neither a value nor a default; otherwise each field takes its value or else its default |
| ImModels.ParseModel | src/im_api/im_api/models/model.py:22-32 | a successful parse gives a record of the requested class with one value per declared field |
| ImModels.Checked | src/im_api/im_api/models/model.py:356-358 | a record is kept only when building it succeeded, and then it is that record |
| ImModels.IndexOf | src/im_api/im_api/models/model.py:18-32 | the position found holds a field of that name, and no position is found only when no field has the name |
| ImModels.LoginId | src/im_api/im_api/models/model.py:166-168 | `Login.id` is the self id when truthy, else the user's id, else `None`; `LoginPreview.id` is always the user's id |
| ImModels.PlatformOf | src/im_api/im_api/models/model.py:340-346 | `platform_` is truthy; it is the event's own platform when that is truthy; it raises exactly when neither the event nor its login has a truthy platform |
| ImModels.SelfIdOf | src/im_api/im_api/models/model.py:348-354 | `self_id_` is truthy; it is the event's own self id when truthy; it raises exactly when neither the event's self id nor its login's id is truthy |
| ImModels.AttrValues | src/im_api/im_api/models/model.py:269 | converted attributes keep exactly the keys of the raw attributes |
| ImModels.ContentsOf | src/im_api/im_api/models/model.py:269 | a converted content list has one item per raw item |
| ImModels.FragmentsOf | src/im_api/im_api/models/model.py:269 | the converted children have one fragment per raw child argument |
| ImModels.ElementOf | src/im_api/im_api/models/model.py:269 | an element built from an item's values takes its type from the item's first value |
| ImModels.Prepared | src/im_api/im_api/models/model.py:266-271 | without `elements`, or with `content` present, the raw message is unchanged; otherwise `content` becomes the rendered elements; no other key changes |
| ImModels.EventDump | src/im_api/im_api/models/model.py:360-392 | an event dumps exactly when both its platform and its self id resolve, and the dump holds the resolved values |
| ImModels.DumpFromKeys | src/im_api/im_api/models/model.py:34-35 | every key of a dump is the name of a dumped field |
| ImModels.EventDumpKeys | src/im_api/im_api/models/model.py:361-367 | an event dump holds the platform and the self id it was given |
| ImModels.DumpGet | src/im_api/im_api/models/model.py:86-96 | a dump holds a field's name exactly when the field is dumped and its value is truthy, with the written value |
| ImModels.SpecFacts | src/im_api/im_api/models/model.py:45-237 | each class has distinct field names, a dump order that lists every field, and writes every required field |
| ImModels.FieldsBack | src/im_api/im_api/models/model.py:22-32 | reading back the fields of a dump converts and fills to the original values |
| ImModels.RoundTrip | src/im_api/im_api/models/model.py:22-32 | parsing the dump of a well-formed record gives the record back, for every class but the event |
| ImModels.ConvRoundTrip | src/im_api/im_api/models/model.py:27-29 | each converter reads back what `dump` wrote for its field |
| ImModels.ConvPreview | src/im_api/im_api/models/model.py:326-330 | a dumped login preview holds a user, so the login converter reads it back as a preview |
| ImModels.ConvLogin | src/im_api/im_api/models/model.py:331 | a dumped login without a user is read back as a login |
| ImModels.ConvertPreview | src/im_api/im_api/models/model.py:326-330 | an object holding a truthy user goes to `LoginPreview.parse` unchanged |
| ImModels.ConvertLogin | src/im_api/im_api/models/model.py:331 | an object without a user goes to `Login.parse` |
| ImModels.ContentWritten | src/im_api/im_api/models/model.py:283 | a message's dump always holds its content |
| ImModels.PreviewUserWritten | src/im_api/im_api/models/model.py:183 | a preview's dump always holds a truthy user |
| ImModels.UserWritten | src/im_api/im_api/models/model.py:86-87 | a user's dump holds its id, so it is never empty |
| ImModels.FieldOfAt | src/im_api/im_api/models/model.py:18-32 | reading a field by name gives the value at that field's position |
| ImModels.EventResolvesOwn | src/im_api/im_api/models/model.py:340-354 | an event with its own platform and self id resolves to exactly those |
| ImModels.EventRoundTrip | src/im_api/im_api/models/model.py:356-392 | a well-formed event dumps, and parsing the dump gives the event back |
| ImModels.ConvertedAgree | src/im_api/im_api/models/model.py:26-31 | conversion depends only on the values under the field names |
| ImModels.ParseAgree | src/im_api/im_api/models/model.py:22-32 | two raw objects that agree on every field name parse alike |
| ImModels.PreparedAgree | src/im_api/im_api/models/model.py:266-271 | message preparation succeeds or fails alike on raw objects that agree on the field names and `elements` |
| ImModels.BuildMissing | src/im_api/im_api/models/model.py:32 | a raw object lacking a required field fails, and with `TypeError` when everything present converts |
| ImModels.RequiredMissing | src/im_api/im_api/models/model.py:32 | parsing a raw object lacking a required field fails, and with `TypeError` when everything present converts |
| ImModels.ParsedEventDumps | src/im_api/im_api/models/model.py:356-365 | any event that parses can be dumped, because construction already resolved its platform and self id |
| ImModels.EventNeedsPlatform | src/im_api/im_api/models/model.py:341-358 | an event whose fields build but whose platform does not resolve fails to parse with `ValueError` |
| ImModels.DumpFromUnwritten | src/im_api/im_api/models/model.py:86-96 | records that differ only in fields `dump` leaves out dump alike |
| ImModels.OfflinePreviewLosesStatus | src/im_api/im_api/models/model.py:188-189 | a preview whose status is `OFFLINE` (0) is dumped without its status and reads back with status `None` |
| ImModels.LoginWithUserReadAsPreview | src/im_api/im_api/models/model.py:326-331 | a `Login` dumped with a user is read back by the event's converter as a `LoginPreview` |
| ImModels.LoginUserWritten | src/im_api/im_api/models/model.py:158-159 | a login with a user writes `user` into its dump |
| ImModels.ParseItem | src/im_api/im_api/models/model.py:405 | one page item parses to a record of the requested class |
| ImModels.ParseItems | src/im_api/im_api/models/model.py:405 | the parsed items correspond one to one to the raw items |
| ImModels.ParsePage | src/im_api/im_api/models/model.py:403-422 | a page without `data` raises `KeyError`; a parsed page holds the parsed items, `next` as given or `None`, and `prev` only for a deque page |
| ImModels.DumpItems | src/im_api/im_api/models/model.py:409 | the dumped items correspond one to one to the records |
| ImModels.ItemsRoundTrip | src/im_api/im_api/models/model.py:405-409 | each record's dump reads back as the record |
| ImModels.PageRoundTrip | src/im_api/im_api/models/model.py:398-430 | parsing a dumped page, plain or deque, gives the page back |
| ImModels.PageParsed | src/im_api/im_api/models/model.py:403-422 | a page whose items parse keeps them with its cursors |
| ImModels.PageDumpEntries | src/im_api/im_api/models/model.py:408-430 | a page dump is `data` followed by the cursors that are set |
| ImContext.NewCtx | src/im_api/im_api/core/context.py:13-16 | a new context has no server, no API and is not initialised |
| ImContext.Logger | src/im_api/im_api/core/context.py:18-23 | the logger is the server's logger, and `RuntimeError` exactly when no server is set |
| ImContext.Initialize | src/im_api/im_api/core/context.py:32-39 | initialising stores the server and marks the context initialised, keeping the API |
| ImContext.SetApi | src/im_api/im_api/core/context.py:49-57 | `set_api` stores the API exactly when initialised, and raises otherwise |
| ImContext.GetApi | src/im_api/im_api/core/context.py:59-67 | `get_api` returns the stored API exactly when initialised, and raises otherwise |
| ImContext.Reset | src/im_api/im_api/core/context.py:69-73 | after `reset` the object is as new, keeping its identity |
| ImContext.GetInstance | src/im_api/im_api/core/context.py:25-30 | the stored instance is returned; without one a new instance is created and stored |
| ImContext.ResetInstance | src/im_api/im_api/core/context.py:75-80 | the registry is emptied, and the old instance, if any, is reset |
| ImContext.Step | src/im_api/im_api/core/context.py:8-80 | one call never takes back a serial number already handed out |
| ImContext.Run | src/im_api/im_api/core/context.py:8-80 | a run answers each call once |
| ImContext.StepGood | src/im_api/im_api/core/context.py:25-80 | every call keeps the shared instance consistent with the serials handed out |
| ImContext.RunGood | src/im_api/im_api/core/context.py:25-80 | any sequence of calls keeps the shared instance consistent |
| ImContext.LoggerIffInitialized | src/im_api/im_api/core/context.py:18-67 | in every consistent state, the logger is available exactly when `get_api` is allowed |
| ImContext.GetInstanceStable | src/im_api/im_api/core/context.py:25-30 | a second `get_instance` returns the same object and changes nothing |
| ImContext.ResetInstanceGivesNew | src/im_api/im_api/core/context.py:25-80 | after `reset_instance`, `get_instance` makes a fresh object different from the old one |
| ImContext.SetThenGet | src/im_api/im_api/core/context.py:49-67 | what `set_api` stores, `get_api` returns |
| ImContext.InitializeEnables | src/im_api/im_api/core/context.py:32-39 | after `initialize`, `get_api`, `set_api` and the logger are all allowed |
| ImContext.ResetDisables | src/im_api/im_api/core/context.py:69-73 | after `reset`, `get_api`, `set_api` and the logger all raise |
| ImContext.Lifecycle | src/im_api/im_api/core/context.py:8-80 | `get_api` before `initialize` raises; initialise, set and get returns the API; a reset in between makes get raise again |

## Findings

| source | as written | input that shows it | evidently intended | confidence | as-written member | corrected member |
|---|---|---|---|---|---|---|
| src/bot/bot/command_handler.py:786-795 | `save` with a location looks the dimension up in `DIMENSION.INT_TRANSLATION`, which `constants.py` does not define | `!!bot save bot_a 0 64 0` raises `AttributeError` | the lookup uses `COMMAND_TRANSLATION` | not executed | BotCommands.SaveCommandAsWritten | BotCommands.SaveCommand |
| src/bot/bot/command_handler.py:870-897 | `config <name> dimension` reads the same missing table | `config bot_a dimension nether` on a known bot raises `AttributeError` | the lookup uses `COMMAND_TRANSLATION` | not executed | BotCommands.ConfigDimensionAsWritten | BotCommands.ConfigDimension |
| src/bot/bot/location.py:28-34 | `str_dimension` reads `DIMENSION.STR_TRANSLATION`, which `constants.py` does not define | `!!bot spawn bot_a` on an offline bot raises `AttributeError` (Bots.SpawnAsWrittenDiffers) | the name comes from `USING_TRANSLATION` | not executed | Bots.SpawnAsWritten | Bots.StrDimension |
| src/bot/bot/plugin.py:130-139 | `get_location` reads `DIMENSION.INT_TRANSLATION`, which `constants.py` does not define | killing an online bot with auto update raises in its thread, and the bot stays online (Bots.KillAsWrittenDiffers) | the dimension key is read through `COMMAND_TRANSLATION` | not executed | Bots.KillAsWritten | Bots.GetLocation |
| bot/bot/fastapi_manager.py:188-195 | PATCH calls `command_handler.parse_name`, but the handler's method is the private, name-mangled `__parse_name` | any PATCH request raises `AttributeError` | the bot name is normalised by the handler's name parser | not executed | LegacyBotApi.PatchAsWritten | LegacyBotApi.Patch |
| src/gamemode/gamemode/__init__.py:232-246 | `is_coord_valid` checks only that the string starts with `-`, not that it holds one `-` | `--5` is accepted, and `!!tp --5 0 0` then raises `ValueError` in `float()` (Gamemode.DoubleMinusRaises) | only `~` and decimal numerals pass | not executed | Coords.IsCoordValid | Coords.IsCoordValidFixed |
| gamemode/gamemode/__init__.py:95-103 | `coordValid` counts the `-` signs but never checks where they are | `5-` is accepted, and `!!tp 5- 64 0` then raises `ValueError` (LegacyGamemode.TrailingMinusRaises) | only `~` and decimal numerals pass | not executed | Coords.LegacyCoordValid | Coords.LegacyCoordValidFixed |
| src/gamemode/gamemode/__init__.py:248-249 | the refusal for a player outside spectator mode does not `return` | `!!tp 0 64 0` outside spectator replies, then raises `KeyError` | the handler stops after the refusal | not executed | Gamemode.TpAsWritten | Gamemode.Tp |
| gamemode/gamemode/__init__.py:106-107 | the same missing `return` in the older `!!tp` | `!!tp overworld 0 64 0` outside spectator raises `KeyError` | the handler stops after the refusal | not executed | LegacyGamemode.TpAsWritten | LegacyGamemode.Tp |
| src/qq_chat/qq_chat/__init__.py:359-367 | every message meant for a sync group is addressed to the main group | with the default config, a game chat line reaches sync group `1234567` never and the main group twice (QqChat.OnUserInfoAsWrittenDiffers) | each message goes to its own sync group | not executed | QqChat.SendToGroupsAsWritten | QqChat.SendToGroups |
| AdvancedBan/AdvancedBan.py:98-102 | `tempban` catches only `ValueError`, but a duration with no token makes `calc_time` raise `IndexError` | `!!tempban Steve XYZ` raises `IndexError` | the duration is answered as invalid | not executed | AdvancedBan.TempbanAsWritten | AdvancedBan.Tempban |
| Archive/vault/vault.py:315-320 | both new balances are computed before either is stored, and `debit == credit` is not refused | a transfer of 5 from `a` to `a` raises `a`'s balance by 5 | a transfer to oneself changes no balance | not executed | Vault.TransferAsWritten | Vault.Transfer |
| src/im_api/im_api/models/parser.py:319 | `value1 or value2` turns an empty quoted value into `None`, so it is read as a bare flag | `<img title=""/>` is read with `title` True | the empty text is kept | not executed | MarkupTree.ReadAttrAsWritten | MarkupTree.ReadAttr |
| src/im_api/im_api/models/element.py:136-141 | `Sharp` declares no `__names__`, and `unpack` reads it | converting `<sharp id="1"/>` raises `AttributeError` | `Sharp` names its fields `id` and `name` | not executed | Elements.NamesAsWritten | Elements.Names |
| src/im_api/im_api/models/element.py:439-449 | the `id`, `href`, `text` and `theme` attributes are escaped together with their own quotes, without inline escaping, so a `"` in the value is kept | an action button with id `a"b` dumps with five `"` (Elements.ButtonDumpQuotes) | each value is escaped inline inside its quotes | not executed | Elements.ButtonAttributesAsWritten | Elements.ButtonAttributes |

## Left out

- I/O is replaced by inputs and emitted outputs. This covers:
  - game-server commands, RCON answers and chat replies;
  - the chat platform APIs and the web frameworks;
  - the `git` calls of the change detector;
  - the saved JSON and database files.
  Rich-text replies (RText and translations) appear only as the datatypes
  the model emits, not as their rendered text.
- Python's `eval` (the calculators and the twenty-four points game) and
  `float()` (the float argument nodes) are parameters. What they accept
  is not modelled.
- Randomness, clocks and threads are parameters or left out:
  - Bingo's shuffle takes the shuffled list;
  - AdvancedBan, Vault and the gamemode range check take the time as an
    input;
  - the twenty-four points game's `make_nums`, `check_random` and timer
    thread are left out;
  - the gamemode loop thread is modelled as one check at a time.
- Floating-point arithmetic is modelled with exact reals. Coordinate
  conversion and clamping use Dafny `real`, and `Decimal` amounts in the
  vault are whole cents.
- Python object identity in the IM API context is a serial number.
- Building elements from files, paths or bytes (`Resource.of`) is not
  modelled. Selecting elements by a query string is not modelled either;
  selecting by class is.
- Markup elements whose type is a render function (`component`) are not
  modelled.
- Float content, and attribute values that are themselves dicts or lists,
  make a raw message element in `MessageObject.parse` fail in the model.
- The legacy `bot/bot/bot_manager.py` and the legacy `constants.py` are
  not part of this model. The legacy handlers read a registry, and the
  legacy REST endpoints take the outcome of `save` and `delete` as input.
- The `NodeType` members of dict command trees are taken from
  `test1/test1/node_type.py`. The package's own `node_type.py` is not part
  of this model.
- The ban list display and the permission table of AdvancedBan are not
  part of this model.
- ChangeFinder.TagList: states only that the split yields at least one
  name. Which names it yields is left to `Split`'s own contract.
- Bots.Spawn: the spawn command carries the location itself. Rendering
  it would go through `str_dimension`, which is modelled on its own
  (Bots.StrDimension), and would raise `KeyError` for a location without
  a known dimension.
- Bots.Kill, BotManager.Kill, BotManager.Spawn, BotManager.Save: the
  server's report for a name is the `whereIs` parameter, standing for the
  corrected `get_location` (Bots.GetLocation) of that report. As written,
  `get_location` raises (Bots.GetLocationAsWritten).
- BotManager.Kill: `Bot.kill` runs in its own `killBot` thread, and
  `update_list` is called right after the thread is started. The model
  runs the kill to its end before the list is cleaned, so an unsaved bot
  is dropped at once, and an exception in the thread is not hidden from
  the caller. BotManager.KillUnsavedDisappears and
  BotCommands.TagKillLeavesTagOffline hold only once the kill thread has
  finished before the cleaning.
- SpawnCmds: builds each spawn command from the corrected spawn. As
  written, the first spawn raises `AttributeError` in `str_dimension`
  (Bots.SpawnAsWritten), so no command is issued.
- SpawnTagged: counts and spawns every tagged offline bot through the
  corrected spawn. As written, the loop stops with `AttributeError` at
  its first offline bot.
- KillEntry: kills through the corrected `get_location`. As written, an
  online auto-updating bot raises in its kill thread and stays online
  (Bots.KillAsWritten).
- TagKill: relies on KillEntry, and so on the corrected `get_location`.
- KillTagged: relies on KillEntry. As written, the auto-updating bots it
  counts as killed stay online. The loop is modelled as two passes
  (KillEntries and KillTaggedCmds) over the same list; nothing else in
  the loop's step depends on the other pass.
- UpdatedBot: `online=true` spawns through the corrected spawn, and a
  kill with auto update uses the corrected `get_location`. As written,
  both raise `AttributeError`.
- Patch: inherits UpdatedBot's corrected spawn and kill.
- Post: `online=true` spawns through the corrected spawn. As written,
  that spawn raises `AttributeError`.
- BotCommands.TagSpawn: spawns the tagged offline bots through the
  corrected spawn. As written, `str_dimension` raises `AttributeError` at
  the first tagged offline bot (Bots.SpawnAsWritten), so the command stops
  there.
- BotApi.SpawnOrKill: `online=true` spawns through the corrected spawn,
  which raises `AttributeError` as written, and `online=false` runs the
  kill to its end where the source starts it in a thread.
- BotApi.UpdateBotData: `!r.response.Raised?` holds of the corrected
  spawn and `get_location` only. As written, `online=true` for an offline
  bot raises `AttributeError` in `str_dimension`, and so does a kill of an
  auto-updating bot in `get_location`.
- ParseName: lower-cases ASCII letters only. Python's `str.lower()` also
  folds other capitals, such as `Ä` to `ä`.
- Uncapitalize: lower-cases an ASCII first letter only, where
  `str.lower()` folds every capital.
- CalcColor: `.upper()` is modelled on ASCII letters only. The colour
  also inherits HexNumber's narrower `int(s, 16)`.
- RefDigitRun: `\d` is the ASCII digits. Python's `\d` matches every
  Unicode decimal digit, so `&#١٢;` is a reference there.
- Chr: a surrogate code point is a failure. Python's `chr(0xD800)`
  succeeds with a lone surrogate, which a Dafny string cannot hold.
- HexNumber: reads only a plain run of hex digits. Python's `int(s, 16)`
  also accepts a sign, surrounding blanks, underscores between digits and
  a `0x` prefix, as in `+f` or `0_f`.
- Component: reads through HexNumber, so `+F` and `0_F` are a
  `ValueError` here and 15 in Python.
- HexToRgb: reads each component through HexNumber. The third slice of
  `#00000XFF` is `0XFF`, which Python's `int("0xff", 16)` reads as 255,
  so Python gives (0, 0, 255) where the model gives `ValueError`.
- Gamemode.TpAsWritten, LegacyGamemode.TpAsWritten, Coords.IsCoordValid,
  Coords.LegacyCoordValid: `isdigit()` is modelled as the ASCII digits.
  Python's `str.isdigit` also holds of other Unicode digits. So `!!tp ² 0 0`
  from a spectator passes the validator and then raises `ValueError` in
  `float()`, and an Arabic-Indic digit such as `١` teleports in Python.
  Both are refused as invalid coordinates here.
- CalcItemStacks: `int()` is modelled as an optional sign and ASCII
  digits (Basics.ParseInt). Python also accepts blanks around the number,
  underscores between digits and Unicode digits, as in `1_0`.
- ParseAll: reads components with the same narrow `int()`.
- VersionCompare: inherits ParseAll's narrow `int()`, so `1.0_1` is an
  error here and compares in Python.
- Coerce: an int field is read with the same narrow `int()`.
- SecurityEval: the value of an accepted expression is an integer.
  Python's `eval` of a screened expression can also yield a float.
- CalcExpression: shows integer values only, so `=7/2`, which shows 3.5,
  is not modelled.
- CalcItemCount: splits integer counts only, so a float count such as
  `==100/3` is not modelled.
- ToJsonObject: returns a fresh value. In Python the result shares the
  item's `tag` dict, so editing it edits the item.
- SetChargedProjectiles: stores a copy of each projectile. Python stores
  the projectile's own `data` dict, so a later edit of the projectile
  shows in the crossbow.
- Prepared: returns the prepared message as a new value. Python's
  `MessageObject.parse` also writes `content` into the caller's `raw`
  dict.
- InitAttrs: refuses a truthy `children` attribute. Python extends the
  children with it (`ensure_list`), and that extension is not modelled.
- TimeOf: keeps an integer timestamp exactly. Python's
  `datetime.fromtimestamp(int(ts) / 1000)` goes through a float, and
  raises for years out of range.
- ConvRoundTrip: the timestamp converter's round trip is exact here. In
  Python, `int(dt.timestamp() * 1000)` of a converted timestamp can come
  back one millisecond low through float rounding.
- RoundTrip: a record's timestamps come back exactly, for the reason
  given under ConvRoundTrip.
- EventRoundTrip: an event's timestamp comes back exactly, for the
  reason given under ConvRoundTrip.
- ParseModel: a nested value that is not a dict is refused. Python passes
  it to the nested `parse`, which tests keys with `in`, so a string can
  parse.
- Team: takes the shuffled players as given. It does not state that they
  are a permutation of the `list` answer's names.
- AfterBound: fills every `{}` of the whitelist template. Python's
  `str.format` raises `IndexError` for a template with two `{}`, and
  treats `{{` and `}}` as escapes.
