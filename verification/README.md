# Prize-wheel bot: conversation and lottery engine in Dafny

This project models the engine of a Telegram prize-wheel bot (`wheel_bot.py`).
End users register with a phone number and a full name. They must be in a
channel, and they may spin the wheel once per round. Each spin draws a
prize by weight. An admin, recognised by the phone number they registered,
starts new rounds.

Every handler is a pure transition. It takes the bot's in-memory state and
one update, and returns the new state and the outcome (which reply the user
gets). The state has four parts:

- the config file: the prize catalog, the current round and the channel;
- the users file: a phone, a name and a last round per user id;
- the per-user conversation stage: idle, awaiting the phone, or awaiting the name;
- the set of ids confirmed as admins since the process started.

Saving a file is modelled as the new state replacing the old one in full.
The outside world supplies three inputs:

- the platform's answer to the membership query (`Membership.Lookup`);
- the random draw, as an integer ticket in `[0, total weight)`;
- the admin phone from the environment.

Files and modules:

- `optional.dfy`, module `Optional`: `Option`, used for absent JSON keys and `None`.
- `text.dfy`, module `Text`: Python's `str.isspace`, `str.endswith`, `str.strip()` and `str.split()`.
- `lottery.dfy`, module `Lottery`: `random.choices` with integer weights, as a function of the ticket.
- `membership.dfy`, module `Membership`: the decision part of `is_member`.
- `wheel_bot.dfy`, module `WheelBot`: the state, the handlers `spin`, `contact` and `reg_name`, the `admin_only` guard, `admin` and `next_round`. It also holds the handler table, as `Step`, and runs of several updates, as `StateAt`.
- `wheel_bot_props.dfy`, module `WheelBotProps`: the state invariant, the admin-set invariant, monotonicity along runs, one draw per round, and admin-only round advance.

Points of `wheel_bot.py` that the model follows closely:

- An all-zero or empty catalog makes `random.choices` raise (wheel_bot.py:104-105). The handler stops there, and the model's `DrawFailed` outcome leaves the state unchanged.
- A winning spin records only `round` in the user's record (wheel_bot.py:106-108). The prize is sent to the user and is not stored.
- Registration has no cancel command. Within one process, a user leaves the name step only by sending a two-word name (wheel_bot.py:128-138). The stages live in `context.user_data`, which is not persisted (wheel_bot.py:157), so a restart clears every stage.
- `is_member` catches only `BadRequest` (wheel_bot.py:67). It lets every user through when the channel is `null`, empty, or the placeholder `@YourChannel` (wheel_bot.py:62-63). The `channel_username` key itself must exist: `spin` reads it as `config["channel_username"]` (wheel_bot.py:78), which raises `KeyError` when the key is missing.
- A contact whose user id is not the sender's gets no reply, and the stage stays `phone` (wheel_bot.py:116-117).
- The name stored is the stripped text (wheel_bot.py:131, 136).

## Model

| member | source | states |
|---|---|---|
| WheelBot.Spin | wheel_bot.py:74-109 | The membership gate comes first: the reply asks the user to join exactly when the gate fails, and then nothing changes. A missing phone gets the phone prompt and stage `phone`. A missing name gets the name prompt and stage `name`. A recorded round at or above the current round is rejected, with no record or stage changed. A draw happens exactly for a registered member whose round is below the current round and when the weights sum above 0. A zero total with such a user fails the draw instead. The prize won is the name of the entry that `Lottery.Pick` selects for the ticket, which has positive weight. A win changes only the winner's `round`, setting it to the current round. No other user's record or stage changes. |
| WheelBot.Contact | wheel_bot.py:112-125 | A contact is accepted exactly when the sender's stage is `phone` and the contact's user id is the sender's. Otherwise nothing changes. When accepted, the phone is stored, the name and round are kept, and the stage becomes `name`. The sender joins the admin set exactly when the phone ends with the admin phone. Other users and the config are untouched. |
| WheelBot.RegName | wheel_bot.py:128-139 | A text is ignored unless the stage is `name`. It is accepted exactly when it has two whitespace-separated words. Otherwise nothing changes and the stage stays `name`. On acceptance the stripped text is stored as the name and the stage returns to `None`. Nothing else about this user or any other user changes. |
| WheelBot.SavedNameIsTrimmed | wheel_bot.py:131-136 | At the name step, a text with two words is saved as the name. The stored name is non-empty, and it neither starts nor ends with whitespace. |
| WheelBot.Authorize | wheel_bot.py:48-58 | The `admin_only` guard adds the user to the admin set when their stored phone is non-empty and ends with the admin phone. The action is then granted exactly when the user is in the set. The set only grows, and by that user alone. A refusal changes nothing. |
| WheelBot.PhoneMakesAdminIff | wheel_bot.py:52-54 | The guard promotes a user exactly when their stored phone is non-empty and is some prefix followed by the admin phone. |
| WheelBot.DefaultAdminPhoneForms | wheel_bot.py:18 | With the default admin phone, a stored number with anything in front of it (nothing, `+`, `00`) is promoted. The domestic `09…` form and a shorter tail of the number are not, because they lack the country code. |
| WheelBot.AdminPanel | wheel_bot.py:142-145 | `/admin` shows the panel exactly to a user who is in the admin set or whose stored phone passes the promotion rule. The panel is shown exactly when the user is in the admin set afterwards, so a user the rule accepts is added to it. Nothing but the admin set changes. |
| WheelBot.NextRound | wheel_bot.py:147-151 | An admin's `/next_round` raises the current round by exactly 1 and leaves the catalog and channel as they were. Anyone else changes nothing at all. Users and stages are never touched. |
| WheelBot.Step | wheel_bot.py:158-163 | Routing an update to its handler never changes the catalog or the channel, and never shrinks the admin set. The round goes up by exactly 1 when the reply announces a new round. That can only be a `/next_round` from a user then in the admin set. Otherwise the round stays the same. |
| WheelBot.StateAt | wheel_bot.py:158-165 | The state after the first `k` updates of a run. The catalog and the channel stay those of the starting state. |
| Membership.IsMember | wheel_bot.py:61-68 | A `null`, empty or placeholder channel always passes. Otherwise a user passes exactly when the platform reports a status of creator, administrator, member or restricted. A `BadRequest` means not a member. |
| Membership.GateNeedsMembership | wheel_bot.py:61-68 | A user who has left, been banned, or whose lookup failed passes only an unchecked channel. A member passes any channel. |
| Lottery.Pick | wheel_bot.py:104-105 | The entry drawn by a ticket has positive weight. The ticket lies within that entry's slice of the cumulative weights. |
| Lottery.PickIffInSlice | wheel_bot.py:104-105 | Entry `i` is drawn exactly when the ticket lies in `[CumWeight(i), CumWeight(i+1))`. This is an independent definition of the draw. |
| Lottery.WinningTicketsCount | wheel_bot.py:104-105 | Of the equally likely tickets, exactly `weight` draw each entry. So the probability of an entry is its weight over the total, and a weight-0 entry is never drawn. |
| Text.Strip | wheel_bot.py:131 | `strip()` returns a slice of the text. Only whitespace lies outside it, and the slice neither starts nor ends with whitespace. |
| Text.StrippedAtIsStrip | wheel_bot.py:131 | Those conditions single out one string, so they define `strip()` on their own. |
| Text.Words | wheel_bot.py:132 | `split()` yields no words exactly when the text is all whitespace. Every word is non-empty and contains no whitespace. |
| Text.WordsAreRuns | wheel_bot.py:132 | A string is one of the words exactly when it is a maximal run of non-whitespace in the text: non-empty, with whitespace or an end of the text on both sides. |
| Text.TwoWordsIff | wheel_bot.py:132 | `len(s.split()) >= 2` holds exactly when `s` has a non-space character, later a space, and later again a non-space character. |
| Text.StripKeepsTwoWords | wheel_bot.py:131-132 | Stripping before splitting does not change whether the text has two words. |
| Text.EndsWithIffSuffix | wheel_bot.py:53 | `endswith` holds exactly when the string is some prefix followed by the suffix. |
| WheelBotProps.InitialInv | wheel_bot.py:32-45 | A fresh installation satisfies the state invariant. It has the seeded config (round 1), no users, no stages and no admins. |
| WheelBotProps.StepPreservesInv | wheel_bot.py:74-151 | Every handler keeps the invariant. The round is at least 1, and no user's round is above it. A user who has played is registered. A user at stage `phone` has no phone, and a user at stage `name` has one. |
| WheelBotProps.InvAlongTrace | wheel_bot.py:74-151 | The invariant holds after any number of updates. |
| WheelBotProps.TraceGrows | wheel_bot.py:45-151 | Along any run, later states keep the catalog and the channel. They have a round no lower and an admin set no smaller. Every user is still present, with a round no lower and no phone or name lost. |
| WheelBotProps.SecondSpinRejected | wheel_bot.py:100-107 | Right after a win, the same user's next spin is not a win and changes no record. A member is told they already played. |
| WheelBotProps.WinsNeedNewRound | wheel_bot.py:100-107 | Along any run from any starting state, between two wins of the same user the current round has gone up: at most one draw per user per round. |
| WheelBotProps.RoundCountsAdvances | wheel_bot.py:147-151 | After `k` updates, the current round has risen by exactly the number of rounds announced so far. |
| WheelBotProps.RoundStartedByAdmin | wheel_bot.py:48-58 | Every announced round came from `/next_round`, sent by a user in the admin set right after it. |
| WheelBotProps.InitialAdminsMatch | wheel_bot.py:45 | A fresh process has an empty admin set, so every admin's phone trivially ends with the admin phone. |
| WheelBotProps.StepKeepsAdminsMatch | wheel_bot.py:112-123 | Under the state invariant, every handler keeps this fact: each member of the admin set has a stored phone ending with the admin phone. Users enter the set only through the phone checks of `contact` and `admin_only`. A stored phone is never replaced, because a contact is accepted only from a user who has no phone. |
| WheelBotProps.AdminsMatchAlongTrace | wheel_bot.py:45-58 | From a state with the invariant and that fact (such as a fresh start), the fact holds after any number of updates. |
| WheelBotProps.RoundStartedByAdminPhone | wheel_bot.py:147-151 | Along such a run, every announced round came from `/next_round`, sent by a user whose stored phone ends with the admin phone. |
| WheelBotProps.RoundAdvanceUnlocks | wheel_bot.py:100-108 | Under the invariant (no user's round above the current round), after an admin starts the next round, a registered member wins on their next spin whenever the catalog has positive total weight. This holds even if they played the previous round. |
| WheelBotProps.RegistrationOrder | wheel_bot.py:87-98 | Under the invariant, a contact is accepted only from a user with no phone yet. A name is accepted only from a user who has a phone, who is then registered. So registration goes phone first, then name. |

## Left out

- The Telegram transport is left out because it is I/O and library plumbing. This covers `Update`, the reply texts, inline and reply keyboards, `ApplicationBuilder`, handler registration and polling (wheel_bot.py:3-11, 154-167). The handler table is kept as `Step`.
- `start` (wheel_bot.py:71-72) is left out: it only sends a fixed greeting and touches no state.
- `load_json`/`save_json` (wheel_bot.py:21-30) are left out: writing a file is the new state replacing the old one. The seeded defaults (wheel_bot.py:32-43) appear as `DefaultConfig` and `Initial`. A users file found on disk is an arbitrary starting state. `TraceGrows` and `WinsNeedNewRound` hold from any starting state. `InvAlongTrace`, `RoundAdvanceUnlocks`, `AdminsMatchAlongTrace` and `RoundStartedByAdminPhone` assume the state satisfies the invariant. A users file holding a round above the config's current round breaks it, and then a round advance need not unlock a spin. The last two also assume the admin-set fact, which every process start meets because the admin set starts empty.
- The `get_chat_member` call (wheel_bot.py:65) is a network call, so it is an input: `Lookup` is either a status or a `BadRequest`. Other exceptions from the call end the handler with no change, and they are not modelled.
- The random source and the floating-point `random() * total` are replaced by an integer ticket in `[0, total)`. For integer weights, the first cumulative weight above `x` is the first one above `floor(x)`, so the ticket is that floor. Float rounding with very large totals is not modelled.
- WheelBot.Spin: requires a ticket below the total weight whenever the total is positive. That is the range of the random draw, so it is not a restriction on users.
- A config file without the `channel_username` key makes `spin` raise `KeyError` (wheel_bot.py:78). The model has no such state: `Config.channel` is always present, and `None` stands for `null`.
- Prize weights are modelled as non-negative integers. JSON would also admit floats and negative numbers.
- The all-zero catalog follows Python 3.9 and later, where `random.choices` raises (`DrawFailed`). Older versions return the last entry instead, and that behaviour is not modelled.
- The environment lookups for the token and the admin phone (wheel_bot.py:17-18, 155-156) are left out. The admin phone is a parameter, with `DefaultAdminPhone` as its default.
- The admin panel's inline button sends the callback `next_round` (wheel_bot.py:144), but no callback handler is registered (wheel_bot.py:158-163). Pressing it changes nothing, so the model has no event for it.
- Concurrency is not modelled: each update is handled to completion as one `Step`. On the draw path of `spin`, the only suspension before the record is written is the membership query, and it comes before the record is read (wheel_bot.py:78-108).
- WheelBot.Spin: the prompts are sent before the stage is written (wheel_bot.py:90-91, 95-97). Another update from the same user handled during that send would still see the old stage. The model writes the stage and the reply in one step.
- Text.Words: neither its contract nor `Text.WordsAreRuns` states the order of the words or how often a repeated word occurs. The bot only reads the number of words, and `Text.TwoWordsIff` pins whether that number is at least 2.
