# Event rosters of the CAPT / AirDrop / MCL Discord bot

The bot posts event announcements in a Discord channel. Members sign up with buttons. Organisers use panels to pick people from the signups, and the bot keeps every list **in memory**.

The repository holds two drifted versions of the bot, `bot.py` and `main.py`. This project models only the roster logic their callbacks run, and proves properties of that logic. The two versions are kept apart as two module families, because they differ in several places:

- In `bot.py`, the AirDrop has no signup limit and keeps a picked list. In `main.py`, the AirDrop has a real capacity and a real queue, but no picked list.
- The two versions have different CAPT pickers, panel permissions, listing formats and time parsers.

Modules:

| module | models |
|---|---|
| `Results`, `Guild` | Option/Result, and the member lookup `guild.get_member` as a given function |
| `Seqs` | Python list idioms on `seq<int>`, each with its laws: `list.remove` (`RemoveFirst`), the filtered rebuild `[x for x in l if …]` (`Keep`/`Without`), `list(dict.fromkeys(l))` (`Dedupe`), `l[:n]` (`Take`) |
| `Text` | `str.strip`, `split`, `join`, `int`/`str` on decimal digits, `lower` on ASCII, `in` on strings |
| `DayTime` | wall-clock times as seconds of the day; the "today if later, else tomorrow" rule; the `HH:MM` field parser both files share; the view-timeout arithmetic |
| `Pools` | the "append each chosen id not yet present and count it" loop both files run |
| `BotRoster` | `bot.py`: `CaptView`, `AirdropView`, `MclView` and its pick and selection views, the ping `PV` roster, and their add/remove callbacks, as classes |
| `BotPicker` | `bot.py`: `CaptPagedPickView`, the paged CAPT picker with a budget of 25 |
| `BotText` | `bot.py`: `_parse_hhmm_to_dt`, `fmt_users`, `format_numbered_users`, `chunk_lines`, the ping "ListaBędę" listing, the AirDrop "show picked" listing |
| `BotRegistry` | `bot.py`: `ACTIVE_CAPTS`, `ACTIVE_AIRDROPS`, and the commands that write and read them |
| `MainRoster` | `main.py`: `CaptView` and `AirdropView` with capacity and queue, `PickView`, the panel add/remove/random views |
| `MainText` | `main.py`: `_parse_pl_time`, its `fmt_users`, `_presence_from_choice`, `_is_valid_stream`, the squad member count |
| `MainRegistry` | `main.py`: `ACTIVE_CAPTS`, `ACTIVE_AIRDROPS`, `SQUADS`, and the commands, button and modal that use them |

How the model is built:

- Each class's list fields are `seq<int>`, and its dictionaries are `map`s.
- Each button or select callback becomes one method. The method's `modifies` clause names the object it edits. Its `ensures` gives the new state in terms of the old state and a specification function.
- The values a widget hands the callback are parameters: the ids chosen in a select, and the text typed in a modal. The `requires` clauses state only what the widget itself enforces (`min_values`, `max_values`, `max_length`). A select's options are those of the list when the view was built, and the list may have changed by the time the callback runs, so the methods accept ids that are no longer listed.
- Permission checks are booleans.
- `random.sample` is an input, constrained to distinct members of the pool with the right size.
- Each roster class carries a `Valid()` invariant, and every method preserves it:
  - no list holds an id twice;
  - for the `main.py` AirDrop, the queue and the signups are disjoint, and when `max_slots > 0` there are at most `max_slots` signups.
- Under this invariant, Python's `list.remove` (first occurrence only) equals removing every occurrence. `Seqs.RemoveFirstIsRemoveAll` proves this.

Behaviour of the code worth knowing before reading the contracts:

- **Paged publish order** (`bot.py:450-457`). The ids chosen on a page are gathered by iterating a Python `set`, so their order within a page is not the order the options were shown in. `BotPicker.PagedPick.Publish` takes that iteration order as an input (`Enumerates`), and proves what holds for every order.
- **Registries** (`bot.py:1603`, `main.py:736`). In both files, a later registration under the same `(guild, channel)` replaces the earlier one; nothing is appended.
- **Removing picks and leaving.** Removing a pick only drops it from the picked list; the person does not go back to the signups. Neither file promotes anyone from the queue when a signup leaves; `MainRoster.LeaveNoPromotion` states this.
- **Paged select cap** (`bot.py:396-403`). A page's select allows at most `min(options, remaining budget)` choices, not just as many as the page has options.

## Model

| member | source | states |
|---|---|---|
| Guild.RawMention | bot.py:202 | the `<@uid>` fallback mention starts with `<@`, ends with `>` and is one line |
| DayTime.SecondOfDay | bot.py:147-153 | a valid `hh:mm` is a whole minute within one day |
| DayTime.NearestFuture | bot.py:147-153 | the chosen start lies strictly after now and at most one day later, on the requested time of day |
| DayTime.NearestFutureUnique | main.py:850-854 | no other moment meets those conditions, so "today if later, else tomorrow" is the only choice |
| DayTime.ParseColonClock | main.py:841-846 | an accepted time has hour 0-23 and minute 0-59, and the stripped text has exactly two `:`-fields |
| DayTime.ColonClockAccepts | main.py:843-844 | any two digit fields within range are accepted with their values |
| DayTime.ColonClockRoundTrip | main.py:843-844 | `f"{hh:02d}:{mm:02d}"` is read back as the same time |
| DayTime.ColonClockNeedsColon | main.py:843-846 | text without `:` is refused |
| DayTime.ViewTimeout | bot.py:464-469 | the view timeout is `max(60, remain + 3600)`: at least a minute, and at least an hour past the start |
| Text.StripIdempotent | bot.py:135 | `strip()` applied twice is `strip()` applied once |
| Text.StripEmpty | main.py:963 | text strips to nothing exactly when every character is whitespace |
| Text.DecimalRoundTrip | main.py:559 | `int(str(n)) == n` for the digit strings `str` produces |
| Text.SplitJoin | main.py:963 | splitting a newline-joined list of one-line strings gives the list back |
| Seqs.RemoveFirstIsRemoveAll | bot.py:523-526 | on a duplicate-free list, `list.remove(x)` removes every occurrence of `x` |
| Seqs.RemoveFirstFacts | bot.py:796-800 | `list.remove` on a duplicate-free list keeps it duplicate-free and drops exactly `x` |
| Seqs.DedupeFacts | bot.py:454 | `list(dict.fromkeys(l))` has no duplicates, the same elements as `l`, and is no longer |
| Seqs.DedupeAppend | bot.py:720 | de-duplicating `a + b` keeps de-duplicated `a` as a prefix and appends the new elements of `b` in first-seen order |
| Seqs.AppendNewFacts | main.py:259 | for a duplicate-free `a`, `dedupe(a + b)` keeps `a` as a prefix and grows by exactly the new elements of `b` |
| Seqs.WithoutFacts | bot.py:610 | the filter `[x for x in l if x not in chosen]` keeps the survivors in order and drops exactly `chosen` |
| Seqs.KeepFacts | main.py:499-505 | the filter `[x for x in l if x in keep]` keeps exactly `l ∩ keep`, in order, without duplicates |
| Pools.AppendAbsent | bot.py:571-579 | the append-if-absent loop keeps the old list as a prefix, appends each new id once in first-seen order, and `added` counts exactly the new ids |
| BotRoster.CaptEvent.constructor | bot.py:462-479 | a new CAPT has no signups, no picks and no message |
| BotRoster.CaptEvent.Join | bot.py:510-516 | joining appends the id only if it is absent, so joining twice changes nothing |
| BotRoster.CaptEvent.Leave | bot.py:519-530 | the id leaves both the signups and the picked list; `changed` holds exactly when it was in one of them; otherwise nothing changes |
| BotRoster.CaptEvent.AddToPicked | bot.py:562-581 | the chosen ids not yet picked are appended in order, and `added` counts them |
| BotRoster.CaptEvent.RemoveFromPicked | bot.py:587-617 | the picked list keeps its survivors in order, and `removed` is the number of ticked ids that were still picked; a ticked id already gone removes nothing |
| BotRoster.AirdropEvent.constructor | bot.py:728-749 | whatever limit is asked for, the AirDrop has `max_slots = 0`, and empty signups, queue and picks |
| BotRoster.AirdropEvent.Join | bot.py:775-788 | a member changes nothing, a full event changes nothing, and anyone else is appended and leaves the queue |
| BotRoster.AirdropEvent.Leave | bot.py:791-804 | the id leaves the signups, the queue and the picks; `changed` holds exactly when it was in one of them |
| BotRoster.AirdropEvent.OpenPick | bot.py:807-821 | the pick view opens only when someone has signed up, and offers every signup |
| BotRoster.AirdropPick.constructor | bot.py:685-695 | the pick view offers the event's signups |
| BotRoster.AirdropPick.Publish | bot.py:716-722 | an empty choice changes nothing; otherwise the picks become `dedupe(old + chosen)`, so existing picks keep their place |
| BotRoster.AirdropEvent.AddToPicked | bot.py:832-843 | the chosen ids not yet picked are appended, and `added` counts them |
| BotRoster.AirdropEvent.RemoveFromPicked | bot.py:867-879 | the survivors keep their order, and `removed` counts the ticked ids that were still picked; a ticked id already gone removes nothing |
| BotRoster.AirdropEvent.ClearPicked | bot.py:1451-1456 | the picked list is emptied and nothing else changes |
| BotRoster.AirdropEvent.AddOne | bot.py:1495-1504 | no choice changes nothing; an id is appended only if absent |
| BotRoster.AirdropEvent.RemoveOne | bot.py:1514-1525 | reports which of the three outcomes applies, and removes the id when it is listed |
| BotRoster.MclEvent.constructor | bot.py:1308-1327 | `max_pick` is at least 1, and every pool and map starts empty |
| BotRoster.MclEvent.AddOrUpdateSignup | bot.py:1329-1335 | the signup is appended only if absent, while `input_map[uid]` always takes the newest text |
| BotRoster.MclEvent.SubmitSignup | bot.py:947-949 | the modal stores the stripped text as the signup's entry |
| BotRoster.MclEvent.RemoveSignup | bot.py:1337-1348 | the id leaves signups and selection, both maps always lose it, and `changed` holds exactly when it was in a list |
| BotRoster.MclEvent.OpenPick | bot.py:1367-1377 | the picker opens only for an authorised caller when there are signups, and offers the first 25 |
| BotRoster.MclPick.constructor | bot.py:1091-1106 | the picker offers `signups[:25]` |
| BotRoster.MclPick.Publish | bot.py:1136-1147 | an empty choice changes nothing; otherwise the selection becomes the chosen ids de-duplicated, and a selection panel opens on it |
| BotRoster.MclSelection.constructor | bot.py:1048-1057 | the panel takes a snapshot of the event's selection |
| BotRoster.MclSelection.PanelAdd | bot.py:1198-1222 | an id the panel's selection lacks is appended and the event's copy is overwritten with it; an id already there changes nothing |
| BotRoster.MclSelection.PanelRemove | bot.py:1255-1277 | a selected id leaves the selection, the order is kept, and the event's copy is overwritten with it; an id no longer selected changes nothing |
| BotRoster.MclSelection.AssignLabel | bot.py:999-1005 | a non-blank label is stored stripped and cut to 30 characters; a blank one removes the label; either way whether or not the player is still selected |
| BotRoster.PingRoster.constructor | bot.py:1755-1757 | a ping roster starts empty |
| BotRoster.PingRoster.Bede | bot.py:1759-1761 | "Będę" appends the caller only if absent |
| BotPicker.PutFacts | bot.py:404-409 | replacing one page's selection keeps pages distinct, changes that page only, and shifts the total by the size difference |
| BotPicker.PutLookup | bot.py:407 | after the replacement, the page holds the new set and every other page is unchanged |
| BotPicker.PutTotal | bot.py:407-408 | the new total is the old total, minus the page's old selection, plus its new one |
| BotPicker.PutDistinct | bot.py:407 | the dictionary still has one entry per page |
| BotPicker.PutFrom | bot.py:407 | every entry of the new dictionary is the new page or an old entry, in insertion order |
| BotPicker.LookupMissing | bot.py:394 | a page never selected reads as the empty set |
| BotPicker.LookupAt | bot.py:394 | each entry is what the dictionary returns for its page |
| BotPicker.LastPage | bot.py:435-441 | the last page `(n-1)//25` is the page holding the last row |
| BotPicker.PageOptions | bot.py:388-390 | a page shows at most 25 consecutive rows of the snapshot, starting at `25·page`, and every page up to the last is non-empty |
| BotPicker.PagesCoverRows | bot.py:388-390 | every row appears on page `i//25` at position `i%25` |
| BotPicker.PagesDisjoint | bot.py:388-390 | with distinct signups, no id appears on two pages |
| BotPicker.Remaining | bot.py:396-397 | `remaining = max(0, 25 − total)` |
| BotPicker.SelectCap | bot.py:398 | the cap is at most the page's options and at most the remaining budget, and is 0 exactly when either is 0 |
| BotPicker.SelectKeepsBudget | bot.py:396-409 | choosing within the cap keeps the total at most 25 |
| BotPicker.FullBudgetDisables | bot.py:399-401 | once 25 are chosen, the select of any non-empty page is disabled |
| BotPicker.SelectionsDisjoint | bot.py:404-409 | each page's choice comes from distinct rows, so the selections of different pages are disjoint |
| BotPicker.FlattenSelections | bot.py:451-453 | the flattened list has as many entries as the total, holds exactly the union, and has no duplicates when the pages are disjoint |
| BotPicker.UnionDisjoint | bot.py:451-453 | the first page's selection shares nothing with the rest |
| BotPicker.PagedPick.constructor | bot.py:367-381 | opening takes a snapshot of the signups at page 0 with nothing selected |
| BotPicker.PagedPick.Select | bot.py:404-409 | the current page's selection is replaced, other pages are untouched, and the total shifts accordingly |
| BotPicker.PagedPick.Prev | bot.py:428-433 | the page decreases but stays at least 0, and the selections are unchanged |
| BotPicker.PagedPick.Next | bot.py:435-441 | the page increases but stays within the last page, and the selections are unchanged |
| BotPicker.PagedPick.Clear | bot.py:443-447 | every selection is emptied, and the page stays |
| BotPicker.PagedPick.Publish | bot.py:449-457 | publishes `dedupe(flatten)[:25]` under every set iteration order; an empty result changes nothing; a published list holds exactly the union of the selections, one entry each |
| BotPicker.OpenPick | bot.py:548-560 | the later `pick` opens the paged picker only for an authorised caller when there are signups |
| BotText.RunsFrom | bot.py:136 | every run `re.findall(r"\d+")` yields is a non-empty string of digits |
| BotText.DigitRuns | bot.py:136 | every run of the whole text is a non-empty string of digits |
| BotText.OneRun | bot.py:136 | a string of digits is a single run |
| BotText.TwoRuns | bot.py:136 | two digit strings around a non-digit are exactly two runs |
| BotText.ClockFromRuns | bot.py:137-143 | a time is read from two or more runs, or from one run of 3-4 digits; anything else is a format error |
| BotText.ParseHhmm | bot.py:131-145 | an accepted time has hour 0-23 and minute 0-59 |
| BotText.ParseHhmmToDt | bot.py:131-154 | accepts exactly what the parser accepts; the result is strictly after now, at most a day later, on the parsed time of day; errors pass through |
| BotText.HhmmSeparated | bot.py:137-138 | `HH<sep>MM`, with any non-digit separator, reads back as the same time |
| BotText.HhmmCompact | bot.py:140-142 | `HMM` or `HHMM` reads back as the same time |
| BotText.NoDigitsRejected | bot.py:143 | text without digits is a format error |
| BotText.LateHourRejected | bot.py:144-145 | an hour above 23 is a range error |
| BotText.NumberedMap | bot.py:200 | `enumerate(ids, start)` yields one line per id |
| BotText.NumberedMapAt | bot.py:200 | line `k` describes id `k` with number `start + k` |
| BotText.Present | bot.py:205-211 | a field is shown exactly when the map has a non-empty entry |
| BotText.JoinFields | bot.py:213 | the mention and the present fields, joined with a vertical-bar separator |
| BotText.UserLineJoin | bot.py:202-213 | a line is `"{idx}. "`, then the mention, then the signup text and the label when present |
| BotText.OverflowLine | bot.py:215-216 | the `(+k)` line is one line |
| BotText.FmtLines | bot.py:199-216 | one numbered line per id of `ids[:limit]`, then `(+k)` for the `k` ids left out |
| BotText.ShownLines | bot.py:199-213 | the loop builds exactly the numbered lines of the shown ids |
| BotText.FmtUsers | bot.py:184-218 | nobody gives `""`; otherwise the lines are joined by newlines |
| BotText.UserLineSingle | bot.py:202-213 | with one-line names and entries, each user line is one line |
| BotText.FmtLinesSingle | bot.py:199-216 | every listing line is one line |
| BotText.FmtUsersLines | bot.py:184-218 | the listing splits back, line by line, into the numbered lines and the overflow line |
| BotText.MentionLine | bot.py:224 | the raw-mention line is one line |
| BotText.NumberedUsers | bot.py:220-225 | one line per id, numbered from 1, in order |
| BotText.NumberedUsersAt | bot.py:222-224 | line `k` is id `k`'s line with number `k + 1` |
| BotText.ChunkRunInvariant | bot.py:228-235 | after any prefix of lines, the closed groups and the open group together are that prefix, and every closed group is non-empty and greedy |
| BotText.ChunkGroupsFacts | bot.py:227-237 | the chunks' lines concatenate to the input; no chunk is empty; empty input gives none; a chunk longer than `max_chars` holds one line; a chunk is closed only when the next line does not fit |
| BotText.ChunkLines | bot.py:227-237 | the loop returns one newline-joined string per group of `ChunkGroups` |
| BotText.BedeLines | bot.py:1777-1778 | one numbered mention per signup, for at most 100 |
| BotText.BedeOverflow | bot.py:1779-1780 | the "and k more" line is one line |
| BotText.BedeAll | bot.py:1777-1780 | a listing of 100 lines plus the overflow line when there are more than 100 signups, otherwise one line each |
| BotText.ListaBedeJoin | bot.py:1773-1781 | a non-empty roster's listing is its lines joined by newlines |
| BotText.ListaBedeLines | bot.py:1773-1781 | the listing splits back into those lines |
| BotText.PickedLines | bot.py:1464-1465 | one `"{i}. <@uid>"` line per pick |
| BotText.ShowPickedAsWrittenOneLine | bot.py:1465 | as written, the joined text never holds a newline |
| BotText.ShowPickedAsWrittenExample | bot.py:1465 | as written, picks `[1, 2]` show as `1. <@1>\n2. <@2>` with a literal backslash-n |
| BotText.ShowPickedLines | bot.py:1458-1465 | the corrected listing splits into one line per pick |
| BotRegistry.Registry.constructor | bot.py:99-100 | both tables start empty |
| BotRegistry.Registry.CreateCapt | bot.py:1582-1603 | a bad `HH:MM` registers nothing; otherwise an empty CAPT at the next such time replaces the channel's entry |
| BotRegistry.Registry.CreateAirdrop | bot.py:1643-1664 | the same, for an AirDrop without a limit |
| BotRegistry.Registry.CaptPanel | bot.py:1623-1630 | the panel opens exactly for an announced event and a caller who is an administrator, the author or a holder of the role; the error says which check failed |
| BotRegistry.Registry.AirdropPanel | bot.py:1684-1691 | the panel opens exactly for an announced AirDrop and a caller who is an administrator or a holder of the role; being the author does not count; the error says which check failed |
| MainRoster.ParseCount | main.py:559 | an accepted count is positive |
| MainRoster.ParseCountRoundTrip | main.py:559 | every positive `str(n)` is read as `n` |
| MainRoster.ParseCountZero | main.py:559 | `"0"` is refused |
| MainRoster.CaptEvent.constructor | main.py:271-287 | a new CAPT is empty and unannounced |
| MainRoster.CaptEvent.Join | main.py:318-325 | joining appends the id only if it is absent |
| MainRoster.CaptEvent.Leave | main.py:327-339 | the id leaves signups and picks; `changed` holds exactly when it was in one of them |
| MainRoster.CaptEvent.AddSignups | main.py:468-483 | new ids are appended to the signups in order, and `added` counts them |
| MainRoster.CaptEvent.RemoveSignups | main.py:485-509 | signups become the kept ones, in order, whatever ids are ticked and also on an empty list; picks are pruned to the remaining signups; `removed` counts exactly the dropped ids |
| MainRoster.CaptEvent.AddToPicked | main.py:511-525 | new ids are appended to the picks, and `added` counts them |
| MainRoster.CaptEvent.RemoveFromPicked | main.py:527-549 | the picks become the kept ones, in order, whatever ids are ticked and also on an empty list, and `removed` counts the dropped ids |
| MainRoster.CaptEvent.Pool | main.py:562 | the draw pool is exactly the signups not yet picked |
| MainRoster.CaptEvent.RandomPick | main.py:557-569 | a bad count or an empty pool changes nothing; otherwise exactly `min(n, len(pool))` distinct pool ids are appended, and the picks stay duplicate-free |
| MainRoster.CaptEvent.OpenPick | main.py:341-366 | the picker opens for an authorised caller when there are signups, and offers `users[:25]` |
| MainRoster.PickView.constructor | main.py:220-236 | the view offers the first 25 signups |
| MainRoster.PickView.Publish | main.py:253-264 | an empty choice changes nothing; otherwise the picks are replaced by the chosen ids, de-duplicated in first-seen order |
| MainRoster.UntickDropsTail | main.py:485-509 | since only `users[:25]` can be kept ticked, rebuilding by the kept ids drops every entry past position 25 |
| MainRoster.AddStepFacts | main.py:605-614 | one step of the panel's add loop keeps the invariant and the running counts |
| MainRoster.AddAllFacts | main.py:599-624 | the add loop never exceeds the slots, keeps the queue disjoint, counts `added` and `skipped_full`, and without a limit adds every new id |
| MainRoster.AirdropEvent.constructor | main.py:369-391 | a negative limit becomes 0; the AirDrop starts empty |
| MainRoster.AirdropEvent.Join | main.py:409-432 | a member changes nothing, a full event changes nothing, and anyone else is appended and leaves the queue; the invariant holds |
| MainRoster.AirdropEvent.Leave | main.py:434-445 | the id leaves signups and queue, and nobody is promoted |
| MainRoster.AirdropEvent.JoinQueue | main.py:447-466 | the five checks in their order: no limit, already signed up, free slots, already queued, else queued |
| MainRoster.AirdropEvent.AddSignups | main.py:599-624 | the loop's result is the specification `AddAll` of the chosen ids |
| MainRoster.AirdropEvent.RemoveSignups | main.py:626-656 | signups become the kept ones, in order, whatever ids are ticked and also on an empty list; the queue is untouched; `removed` counts the drop |
| MainRoster.AirdropEvent.DrawWinners | main.py:664-676 | the outcome is exactly: a bad count is refused, else an empty pool is refused, else the sample is drawn; winners come from the queue when there is a limit, otherwise from the signups, and are `min(n, len(pool))` distinct pool members |
| MainRoster.LeaveNoPromotion | main.py:434-445 | leaving keeps the invariant and only shrinks both pools |
| MainText.ParsePlTime | main.py:841-854 | accepts exactly a valid `HH:MM`, and returns a start strictly after now, at most a day later, on that time of day |
| MainText.ParsePlTimeWritten | main.py:841-854 | a zero-padded `HH:MM` gives the next moment of that time |
| MainText.ParsePlTimeUnique | main.py:847-854 | any other candidate with those properties equals the result |
| MainText.BulletLines | main.py:97-102 | one bullet line per id of `ids[:limit]`, then `… (+k)` |
| MainText.FmtUsers | main.py:94-103 | the dash appears exactly for an empty list, and the text is never empty |
| MainText.FmtUsersLines | main.py:94-103 | the listing splits back into its bullet and overflow lines, `min(n, limit)` plus one when ids are left out |
| MainText.PresenceChoices | main.py:881-887 | each choice value maps to its own status, and anything else maps to online |
| MainText.StreamCaseInsensitive | main.py:889-892 | the stream check ignores letter case |
| MainText.TwitchAccepted | main.py:889-892 | any text holding `twitch.tv/` is accepted |
| MainText.StreamNeedsSlash | main.py:889-892 | a link without `/` is refused |
| MainText.NonBlank | main.py:963 | the kept lines are the non-blank ones, and there are no more of them than lines |
| MainText.SquadCountOfLines | main.py:963-964 | a list written line by line counts its non-blank lines |
| MainText.InitialMembersCount | main.py:1032 | a new squad's template counts three members |
| MainRegistry.Registry.constructor | main.py:61-63 | the three tables start empty |
| MainRegistry.Registry.CreateCapt | main.py:715-736 | a bad `HH:MM` registers nothing; otherwise an empty CAPT at the parsed time replaces the channel's entry |
| MainRegistry.Registry.CreateAirdrop | main.py:781-802 | the same, with the limit normalised to at least 0 |
| MainRegistry.Registry.CaptPanel | main.py:758-765 | the panel opens exactly for an announced event and an administrator or the author; the error says which check failed |
| MainRegistry.Registry.AirdropPanel | main.py:824-831 | the same for the AirDrop |
| MainRegistry.Registry.CreateSquad | main.py:1021-1041 | a non-admin stores nothing; otherwise the announcement is stored with the three-line template |
| MainRegistry.Registry.OpenEditor | main.py:1007-1018 | a non-admin is refused first, then an unknown squad; otherwise the current list is shown |
| MainRegistry.Registry.EditMembers | main.py:981-987 | an unknown squad changes nothing; otherwise only its member list is overwritten |

## Left out

- Dates, time zones and daylight saving time. A time is a second of the day, and "tomorrow" adds 86400 seconds. The `zoneinfo` fallback branches and `_rel_pl` are left out.
- The clock. `now` is a parameter, and the ticker loops that edit the announcement when the event starts are left out.
- Python `int()` leniency: surrounding whitespace inside a field, signs, underscores and non-ASCII digits. Fields are ASCII digits. `re.findall(r"\d+")` also matches non-ASCII digits, and the model counts only `0`-`9`.
- `str.lower` and `strip` beyond the characters listed in `Text`. There is no Unicode case folding.
- BotText.FmtUsers: `limit` is a natural number, because Python's slice with a negative `limit` counts from the end, and no caller passes one.
- The `PickView` class of `bot.py` (bot.py:309-360). Nothing constructs it.
- The first `CaptView.pick` and the first `MclAssignLabelModal` of `bot.py` (bot.py:534, bot.py:955). A later definition in the same scope replaces each, so the later ones are modelled.
- `asyncio.Lock` and all concurrency. Each callback is one atomic method.
- Discord I/O: embeds, ephemeral replies, message edits, option labels and descriptions, and the text of every reply.
- Permission checks. Administrator, author and `REQUIRED_ROLE_ID` are booleans, and the `role_required_check` decorator (bot.py:103-114, main.py:66-77) is taken as passed.
- `random.sample`: the sample is a parameter, constrained to distinct pool members of the right size.
- `guild.get_member` is a given function (`Guild.Directory`).
- Discord's widget limits, such as 25 options and `max_values`, appear only as preconditions. The model does not check that a view respects them. For example, the `bot.py` AirDrop picker may offer more than 25 signups.
- The iteration order of a Python `set` in the paged publish is an input.
- Transferring picks back to the signups, and queue promotion. Neither file does either.
- Presence changes, `/set-status`, `/clear-status` and `/set-visibility`, beyond `_presence_from_choice` and `_is_valid_stream`. Also left out: the HTTP health servers, signal handling and command-tree sync.
- Squad announcement edits, embed titles and the role ping. Only the `SQUADS` table and the member count are modelled.
- `create_mcl` and `create_zonewars` (bot.py:1388-1428, bot.py:1538-1580). Their inner parser repeats `_parse_hhmm_to_dt`, which `BotText.ParseHhmmToDt` models. Their registration and I/O are not modelled.
- The `bot.py` copy of `_parse_pl_time` (bot.py:257-271). It is the same `HH:MM` rule as `DayTime.ParseColonClock`.
- Ping rosters other than Cayo (bot.py:1799-1930). They are copies of the same `PV` class.

## Findings

| source | as written | input that shows it | evidently intended | confidence | as-written member | corrected member |
|---|---|---|---|---|---|---|
| bot.py:1465 | the "show picked" listing joins its lines with `"\\n"`, a two-character backslash-n | picks `[1, 2]` show `1. <@1>\n2. <@2>` with a literal backslash and `n` on one line | lines joined by a real newline, one pick per line, as every other listing does | high; not executed | BotText.ShowPickedAsWrittenExample | BotText.ShowPickedLines |
