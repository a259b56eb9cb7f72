# dbc-bot tournament core in Dafny

A model of three small, deterministic parts of a Discord bot that runs
single-elimination Brawl Stars tournaments:

- **The tournament configuration record** (`config.dfy`, module
  `TournamentConfig`). The bot keeps one config document in MongoDB with the
  fields `registration`, `tournament_started`, `round`, `mode`, `map` and
  `total`. Each builder in the source returns either the initial document or
  a `$set`/`$inc` update document. The model returns an `Update` value, and
  `Apply` gives the record that MongoDB holds after applying it: `$set`
  overwrites exactly the listed fields, and `$inc` adds to `round`. Each
  builder's contract gives its effect on every possible record. The lemmas
  cover the phase the record describes (`PhaseOf`) and a consistency
  invariant (`Consistent`): before the start the round is 0, and during play
  registration is closed and the round lies in 1..total.
- **Finding a match result in the battle log** (`submit.dfy`, module
  `Submit`). The `submit` command scans a player's battle log. An entry
  qualifies when it is a `wipeout` battle and the first-player tags of its
  two teams include both players of the pairing. The scan overwrites
  `result` at every qualifying entry, so the last qualifying entry in feed
  order wins. `Scan` is the loop, proved against `LastQualifying`. The reply
  branch depends only on how many entries were scanned.
- **Overlay geometry** (`visual.dfy`, module `Visual`). This covers unpacking
  a packed RGBA colour, the rectangle and parallelogram pixel fills (as
  `array2` buffers filled in loops), components that are positioned and
  centred with Rust's truncating `/`, and the canvas's list of overlays.

`rust_int.dfy` (module `RustInt`) holds Rust's integer types (`u8`, `u32`,
`i32`, `i64` as newtypes), the truncating `as` casts, and division by two
that rounds toward zero, as Rust's `/` does. `wrappers.dfy` holds `Option`.

The model follows the code, including where it differs from what a
tournament bot would be expected to do:

- One might expect the first (most recent) qualifying entry to decide a
  match. The code keeps the last one in feed order
  (`Submit.LaterQualifyingWins`).
- One might expect both sides' tag sets to have to equal {player1, player2}.
  The code only checks that both players appear among the two first-player
  tags. So when player1 equals player2, an entry that names that player once
  qualifies (`Submit.QualifiesIff`).
- One might expect advancing a round to fail before the start.
  `update_round` has no guard (`TournamentConfig.AdvanceBeforeStart`).
- One might expect mode and map to be fixed once the tournament starts.
  `set_config` can be applied at any time.
- One might expect a draw to count as "no matching record". The reply branch
  never depends on the result's value: the result is only passed to
  `get_color` to choose the embed colour.

## Model

| member | source | states |
|---|---|---|
| `RustInt.AsUint8` | src/visual/model.rs:58-61 | `as u8` (and `& 0xFF`) keeps the value modulo 256 |
| `RustInt.AsUint32` | src/visual/model.rs:64 | `as u32` keeps the value modulo 2^32 and leaves values already in range unchanged |
| `RustInt.TruncHalf` | src/visual/model.rs:226 | `/ 2` rounds toward zero: for a non-negative a, 2q ≤ a ≤ 2q+1; for a negative a, 2q−1 ≤ a ≤ 2q; and the result fits in an i64 whenever a does |
| `TournamentConfig.Apply` | src/bracket_tournament/config.rs:20-101 | MongoDB's update semantics: `$set` gives each listed field its new value and keeps every other field, and `$inc` adds the amount to `round` and changes nothing else |
| `TournamentConfig.SetIdempotent` | src/bracket_tournament/config.rs:20-101 | applying any `$set` document twice equals applying it once |
| `TournamentConfig.IncComposes` | src/bracket_tournament/config.rs:68-87 | two `$inc` updates of the round equal one `$inc` by their sum |
| `TournamentConfig.MakeConfig` | src/bracket_tournament/config.rs:8-18 | the initial record: registration open, not started, round 0, total 0, mode and map null; its phase is "registration open" and it is consistent |
| `TournamentConfig.SetConfig` | src/bracket_tournament/config.rs:20-28 | on every record, the update changes mode to the mode's name and map to the given optional map, and nothing else |
| `TournamentConfig.DisableRegistration` | src/bracket_tournament/config.rs:35-43 | on every record, the update clears the registration flag and changes nothing else |
| `TournamentConfig.StartTournamentConfig` | src/bracket_tournament/config.rs:45-56 | on every record, the update gives round 1, started, registration closed and total := total, and leaves mode and map as they were; the resulting phase is always "in progress, round 1" |
| `TournamentConfig.EnableRegistration` | src/bracket_tournament/config.rs:58-66 | on every record, the update sets the registration flag and changes nothing else |
| `TournamentConfig.UpdateRound` | src/bracket_tournament/config.rs:68-87 | on every record, `Some(r)` sets the round to r, and `None` increases it by exactly 1; no other field changes |
| `TournamentConfig.ResetConfig` | src/bracket_tournament/config.rs:89-101 | applied to any record, the update gives exactly the `make_config` record |
| `TournamentConfig.ResetIdempotent` | src/bracket_tournament/config.rs:89-101 | resetting twice equals resetting once, and a reset record, from any record, is in the registration phase and satisfies the invariant |
| `TournamentConfig.DisableIdempotent` | src/bracket_tournament/config.rs:35-43 | closing registration twice equals closing it once |
| `TournamentConfig.EnableIdempotent` | src/bracket_tournament/config.rs:58-66 | opening registration twice equals opening it once |
| `TournamentConfig.StartFromFresh` | src/bracket_tournament/config.rs:8-56 | starting the initial record gives registration closed, started, round 1, the given total, and mode and map still null |
| `TournamentConfig.ConsistencyKeptBySetup` | src/bracket_tournament/config.rs:20-101 | on a consistent record, reset, `set_config`, opening registration before the start, and starting with total ≥ 1 all give a consistent record |
| `TournamentConfig.ConsistencyKeptByPlay` | src/bracket_tournament/config.rs:35-87 | on a consistent record, closing registration, and a round update that stays within 1..total during play, both give a consistent record |
| `TournamentConfig.EnableDuringPlay` | src/bracket_tournament/config.rs:45-66 | opening registration after the start breaks the invariant, because nothing in the builder guards it |
| `TournamentConfig.AdvanceBeforeStart` | src/bracket_tournament/config.rs:68-87 | `update_round(None)` on the initial record gives round 1 while the record is still not started, which breaks the invariant |
| `Submit.Qualifies` | src/commands/submit.rs:36-38 | a qualifying entry is a "wipeout" battle, and {player1, player2} is a subset of its two first-player tags |
| `Submit.QualifiesIff` | src/commands/submit.rs:6-38 | for two different players, an entry qualifies iff it is a "wipeout" battle whose two first-player tags are exactly {player1, player2}; when both players are the same tag, it qualifies iff it is a "wipeout" battle and either first-player tag is that tag |
| `Submit.QualifiesSymmetric` | src/commands/submit.rs:37-38 | swapping the two players, or the two teams of an entry, does not change whether it qualifies |
| `Submit.LastQualifying` | src/commands/submit.rs:25-43 | the result is None iff no entry qualifies; otherwise it is a qualifying position after which no entry qualifies |
| `Submit.QualifyingEntries` | src/commands/submit.rs:36-39 | the entries it keeps are exactly the qualifying entries of the log |
| `Submit.ScanResultIsLastOfQualifying` | src/commands/submit.rs:24-43 | the scan's result is the result of the last qualifying entry, or "" when none qualifies; it depends on nothing else |
| `Submit.NonQualifyingIgnored` | src/commands/submit.rs:36-43 | an entry that does not qualify never changes the result |
| `Submit.LaterQualifyingWins` | src/commands/submit.rs:41 | a qualifying entry overrides the results of all earlier entries |
| `Submit.Scan` | src/commands/submit.rs:23-45 | after the loop, `index` equals the number of entries, and `result` is the result of the last qualifying entry, or "" if none qualifies |
| `Submit.SubmitAsWritten` | src/commands/submit.rs:23-158 | the reply branch is taken iff the log has at most 21 entries, and it then always reads `logs[index]` at index = the number of entries, one past the end of the log; a longer log gets "No battle logs found"; a battle is never shown |
| `Submit.ScanLastQualifying` | src/commands/submit.rs:25-45 | the loop finds the position of the last qualifying entry, or None |
| `Submit.SubmitCorrected` | src/commands/submit.rs:60-158 | a battle is shown iff some entry qualifies; the shown entry is the last qualifying entry of the log, and it carries the scan's result; the reply never reads out of range |
| `Visual.ShiftRight` | src/visual/model.rs:58-60 | `>>` on an i64 is floor division by 2^n (it rounds toward minus infinity): r·2^n ≤ x < (r+1)·2^n |
| `Visual.UnpackColor` | src/visual/model.rs:58-61 | r, g, b and a are bits 24-31, 16-23, 8-15 and 0-7 of the colour (floor shift, then the low 8 bits) |
| `Visual.PackColor` | src/visual/model.rs:58-61 | `(r<<24) \| (g<<16) \| (b<<8) \| a` is a 32-bit value |
| `Visual.PackUnpack` | src/visual/model.rs:58-61 | for 0 ≤ colour < 2^32, packing the unpacked channels gives the colour back |
| `Visual.UnpackPack` | src/visual/model.rs:58-61 | unpacking packed channels gives the same channels |
| `Visual.BuildRectangle` | src/visual/model.rs:57-73 | the buffer is width × height (each cast to u32), and every pixel holds the unpacked colour |
| `Visual.BuildParallelogram` | src/visual/model.rs:78-100 | the buffer is height × height, and pixel row y is transparent iff y < top or y > bottom (each cast to u32); every other row holds the unpacked colour |
| `Visual.CenterOffset` | src/visual/model.rs:225-252 | for d = base − size, the offset q satisfies \|2q − d\| ≤ 1 and rounds toward zero |
| `Visual.Component.constructor` | src/visual/model.rs:199-209 | a missing x defaults to the image width, a missing y to the image height, and a missing name to "untitled" |
| `Visual.Component.Width` | src/visual/model.rs:210-212 | equals the image's u32 width, widened to an i64 without change (so in 0..2^32) |
| `Visual.Component.Height` | src/visual/model.rs:214-216 | equals the image's u32 height, widened to an i64 without change (so in 0..2^32) |
| `Visual.Component.SetX` | src/visual/model.rs:217-219 | sets x; only x may change |
| `Visual.Component.SetY` | src/visual/model.rs:221-223 | sets y; only y may change |
| `Visual.Component.GetCenterX` | src/visual/model.rs:244-247 | the returned x centres the component on the base width up to rounding: \|2x + w − base\| ≤ 1 |
| `Visual.Component.GetCenterY` | src/visual/model.rs:249-252 | the same for y and the base height |
| `Visual.Component.SetCenterX` | src/visual/model.rs:225-227 | stores the value that `get_center_x` returns, so \|2x − (P − w)\| ≤ 1; only x may change |
| `Visual.Component.SetCenterY` | src/visual/model.rs:229-231 | the same for y; only y may change |
| `Visual.Component.SetRelativeCenterX` | src/visual/model.rs:233-235 | stores x = `get_center_x(2·d.x + d.w)` = trunc((2·d.x + d.w − w)/2), so the component's horizontal midpoint equals the dependent's up to rounding: \|(2x + w) − (2·d.x + d.w)\| ≤ 1 |
| `Visual.Component.SetRelativeCenterY` | src/visual/model.rs:237-239 | stores y = `get_center_y(2·d.y + d.h)` = trunc((2·d.y + d.h − h)/2), so the vertical midpoints agree up to rounding |
| `Visual.CanvasSize` | src/visual/model.rs:261-275 | the given width and height are used only when both are present; otherwise the background's size is used |
| `Visual.BSImage.constructor` | src/visual/model.rs:256-277 | the canvas has the size `CanvasSize` chooses, the given or default name, and no overlays |
| `Visual.BSImage.AddOverlay` | src/visual/model.rs:279-281 | appends exactly one component at the end and keeps the earlier overlays in order |

## Findings

| source | as written | input that shows it | evidently intended | confidence | as-written member | corrected member |
|---|---|---|---|---|---|---|
| src/commands/submit.rs:44-138 | the reply branch reads `logs[index]`, but `index` was incremented once per entry, so it equals `logs.len()`; indexing a `Vec` there panics, so whenever this branch is taken (at most 21 entries) the command panics instead of replying | any log of at most 21 entries, e.g. one qualifying `wipeout` entry | show the qualifying entry that produced `result`, and reply "No battle logs found" only when no entry qualifies | medium, not executed | `Submit.SubmitAsWritten` | `Submit.SubmitCorrected` |

## Left out

- Fetching the battle log from the Brawl Stars API, reading the two players
  from the sample match JSON, and extracting strings from JSON (the quote
  stripping, and the `"null"` rendering of missing fields) are left out.
  A `LogEntry` holds the four extracted strings. The fields the embed shows
  (battle time, map, duration, brawlers) and the embed building itself are
  presentation.
- `get_config` is a database read. How MongoDB stores BSON number types is
  also left out: the round and total are unbounded integers, and
  `$inc` has no overflow.
- Mode: the mode's `Debug` name (`format!("{:?}", mode)`) is given as a
  string. The `Mode` enum is not part of this model.
- `Text::build` and `Text::new` (font rendering), `CustomImage::build`,
  `CustomImage::new` and `default_image_bytes` (HTTP fetch and Lanczos
  resize), `set_dimensions`, and `BSImage::build` (`imageops::overlay`)
  are calls into the image library. Pixel data is opaque: an `Image` is
  only its width and height.
- `BSImage::new` opens the background from a path. The model takes the
  opened `Image` as a parameter instead.
- Visual.Component.SetCenterX, SetCenterY, SetRelativeCenterX,
  SetRelativeCenterY, GetCenterX, GetCenterY: these assume overflow checks,
  as in a debug build. Their i64 arithmetic must not overflow, which makes
  that a precondition. A release build would wrap instead, and that is not
  modelled.
- Visual.BSImage.AddOverlay: in Rust the component is moved into the
  vector. Here overlays are references to `Component` objects, so a
  component changed after being added changes in the list as well.
- The `println!` logging (src/bracket_tournament/config.rs:46 and
  src/commands/submit.rs:18-22) is console output and is left out.
- The announcement interaction loop, start-up (`main.rs`), module
  declarations, and all concurrency and conditional-write behaviour are left
  out. None of them is in these three files' logic.
