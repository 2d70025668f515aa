# EduBuddy playback and version tools, modelled in Dafny

This project models three sequential parts of EduBuddy.

- **The realtime playback state machine** of the voice demo (`NoUIDemo`). Assistant audio arrives as chunks
  `(samples, item_id, content_index)`. The session-event handler appends them to an output queue. The audio
  device's output callback then fills fixed-size frames from the current chunk and the queue. That callback
  holds playback back behind a three-chunk jitter buffer ("prebuffering"). When the user barges in, it fades
  the current chunk out over at most 12 ms (576 samples at 48 kHz) and then flushes everything. One turn of
  the microphone loop decides whether the user is talking over the assistant and raises the interrupt.
- **Dotted-version comparison**: `VersionManager.compare_versions` and `is_newer_version`.
- **The version script**: `bump_version`, the `set` format check `^\d+\.\d+\.\d+$`, reading the version out
  of `__version__ = "..."` and rewriting that line, and how the `show`/`set`/`bump` commands put these
  together.

## Layout

- `wrappers.dfy` (`Wrappers`): `Option` and `Result`.
- `pystr.dfy` (`PyStr`): the Python string primitives the version code uses:
  - `str.split('.')`;
  - `int()` on ASCII digit strings;
  - `str(int)`.
- `versions.dfy` (`Versions`): `compare_versions` and `is_newer_version` as total functions returning a
  `Result`. A component that `int()` rejects is the `ValueError` case.
- `version_script.dfy` (`VersionScript`): covers the following.
  - Bumping, the format check, extraction (`re.search`) and rewriting (`re.sub`), all on strings.
  - The three commands, with file contents given as `Option<string>` (`None` means the file is missing).
  - The outcome of a command: shown, written, unchanged or failed.
- `playback.dfy` (`Playback`): the playback fields as a value `Player`. It defines what each part of the
  callback does as functions:
  - `FillStep` and `Fill` for the normal path;
  - `FadeSetup` and `FadeLoop` for the fade;
  - `Callback` for the whole callback;
  - `Dispatch` for the event handler;
  - `Capture` for the barge-in decision.

  It also holds the invariant `Inv` and the lemmas about these functions.
- `realtime_agent.dfy` (`RealtimeAgent`): the class `NoUIDemo` with the source's fields. Its methods update
  the fields and the output `array` in place, with the source's loops. Each method is proved to leave
  exactly the state, frame and tracker reports that the matching `Playback` function gives. So every lemma
  of `Playback` holds for the object. `_truncate_str` is modelled here too.

The tracker reports are a ghost log `reports` of `(item_id, content_index, count)` entries, one for each
segment handed to the playback tracker. `Callback` requires `Inv`. The constructor establishes `Inv`, and
every operation of the class keeps it (`Valid()`), so `Inv` holds in every state the object can reach.

## Model

| member | source | states |
|---|---|---|
| RealtimeAgent.NoUIDemo.constructor | src/edubuddy/realtime_agent.py:88-112 | the queue is empty, nothing plays, prebuffering is armed, no fade and no interrupt; the prebuffer target is 3 and the fade length is 576; the invariant holds |
| Playback.InitialInv | src/edubuddy/realtime_agent.py:88-112 | the initial state satisfies the invariant, is prebuffering, has no interrupt pending and no audio pending |
| RealtimeAgent.NoUIDemo.OutputCallback | src/edubuddy/realtime_agent.py:114-234 | the callback keeps the invariant and leaves exactly the state, the frame and the tracker reports that `Callback` gives |
| RealtimeAgent.NoUIDemo.FadeOut | src/edubuddy/realtime_agent.py:133-183 | the interrupt path with a current chunk: the fade setup, the fading loop and the flush at completion, equal to `Callback` on that state |
| RealtimeAgent.NoUIDemo.RampDown | src/edubuddy/realtime_agent.py:141-169 | the fading loop writes into the frame exactly the ramped samples of `FadeLoop` and leaves the rest silent; it advances the position and the fade counter as `FadeLoop` does and logs its reports |
| RealtimeAgent.NoUIDemo.RampSegment | src/edubuddy/realtime_agent.py:146-169 | one iteration of the fading loop keeps the loop's account (`FadeSoFar`) and strictly advances the fade counter, so the loop ends |
| RealtimeAgent.FadeAdvances | src/edubuddy/realtime_agent.py:146-169 | after one ramped segment, what has been written and reported, followed by the rest of `FadeLoop` from the new state, is still the whole `FadeLoop` |
| RealtimeAgent.NoUIDemo.PlayQueued | src/edubuddy/realtime_agent.py:185-234 | the normal path writes exactly `Fill`'s samples into the silent frame, leaves the tail silent, ends in `Fill`'s state and logs `Fill`'s reports |
| RealtimeAgent.NoUIDemo.FillTurn | src/edubuddy/realtime_agent.py:189-234 | one iteration of the filling loop either stops with the whole loop accounted for or keeps the account (`FillSoFar`); it either fills a sample or finishes a chunk |
| RealtimeAgent.NoUIDemo.PlayCurrent | src/edubuddy/realtime_agent.py:208-234 | a copy keeps the filling loop's account and either fills a sample or gets rid of a chunk |
| RealtimeAgent.FillAdvances | src/edubuddy/realtime_agent.py:189-234 | after a turn that goes on, what has been written and reported, followed by the rest of `Fill`, is still the whole `Fill` |
| RealtimeAgent.FillTurnStops | src/edubuddy/realtime_agent.py:194-206 | after a turn that stops (the prebuffer gate or an empty queue), the whole `Fill` is what has been written and reported |
| RealtimeAgent.NoUIDemo.CopyFromCurrent | src/edubuddy/realtime_agent.py:208-234 | copies the segment `Copy` gives into the frame after what was written; advances the position, drops a used-up chunk and logs one report per non-empty segment |
| RealtimeAgent.NoUIDemo.ClearQueue | src/edubuddy/realtime_agent.py:124-128 | draining the queue one chunk at a time leaves it empty and changes nothing else |
| RealtimeAgent.NoUIDemo.Silence | src/edubuddy/realtime_agent.py:186 | the frame is all zeros |
| RealtimeAgent.Blit | src/edubuddy/realtime_agent.py:157 | a slice assignment into a frame that is silent after the written prefix puts the segment right after that prefix and keeps the rest silent |
| RealtimeAgent.NoUIDemo.OnEvent | src/edubuddy/realtime_agent.py:422-469 | the handler's state effect is `Dispatch`: it keeps the invariant and logs no report |
| RealtimeAgent.NoUIDemo.CaptureBlock | src/edubuddy/realtime_agent.py:393-404 | one capture turn's state change and the block it sends (if any) are `Capture`'s |
| RealtimeAgent.TruncateStrSpec | src/edubuddy/realtime_agent.py:81-84 | a string of at most `m` characters comes back unchanged; a longer one becomes its first `m` characters plus "...", of length `m + 3`; the result always starts like the input |
| RealtimeAgent.TruncateStr | src/edubuddy/realtime_agent.py:81-84 | a string no longer than the limit is returned as it is; a longer one keeps at most a prefix of the original in front of three closing characters; for a non-negative limit the result is at most three characters longer than the limit |
| Playback.Copy | src/edubuddy/realtime_agent.py:208-234 | one copy never takes more than the free room, and either copies a sample or drops the current chunk |
| Playback.FillStep | src/edubuddy/realtime_agent.py:189-234 | a turn that goes on copies at most the free room, and either copies a sample or finishes a chunk (the corrected turn; see Findings) |
| Playback.FillStepAsWritten | src/edubuddy/realtime_agent.py:189-234 | the turn as written never copies more than the free room (unlike `FillStep`, it may go on without copying or finishing a chunk; see Findings) |
| Playback.CopyAsWritten | src/edubuddy/realtime_agent.py:208-234 | the copy as written always goes on and never copies more than the free room |
| Playback.Fill | src/edubuddy/realtime_agent.py:186-234 | the normal path never writes more samples than the frame holds |
| Playback.FillContinues | src/edubuddy/realtime_agent.py:189-229 | a turn that goes on puts its segment and reports in front of the rest of the loop |
| Playback.FillStops | src/edubuddy/realtime_agent.py:189-206 | a full frame, or a turn that stops, ends the loop with nothing more written |
| Playback.CopyConserves | src/edubuddy/realtime_agent.py:208-234 | the copied segment is the head of the pending audio (the rest of the current chunk, then the queue in FIFO order), and its report tags exactly those samples |
| Playback.DequeueConserves | src/edubuddy/realtime_agent.py:199-201 | taking the head of the queue as the current chunk leaves the pending audio and its tags unchanged |
| Playback.StepConserves | src/edubuddy/realtime_agent.py:189-234 | a turn that stops leaves the pending audio alone; a turn that goes on removes exactly its copied segment from the front and reports exactly its tags |
| Playback.FillConserves | src/edubuddy/realtime_agent.py:186-234 | the frame's samples are the front of the pending audio in FIFO order, and the reports tag exactly those samples with their chunks' item and content index |
| Playback.FillConservesSamples | src/edubuddy/realtime_agent.py:186-234 | the samples written followed by what is still pending afterwards equal what was pending before |
| Playback.FillConservesTags | src/edubuddy/realtime_agent.py:186-234 | the reports' tags followed by the tags still pending afterwards equal the tags pending before |
| Playback.StepKeepsInv | src/edubuddy/realtime_agent.py:189-234 | a turn leaves the interrupt and fade fields alone and keeps the invariant |
| Playback.FillKeepsInv | src/edubuddy/realtime_agent.py:186-234 | the normal path leaves the interrupt and fade fields alone and keeps the invariant, including position < chunk length |
| Playback.FillStopsOnlyWhenStarved | src/edubuddy/realtime_agent.py:194-206 | the frame ends in silence only when no chunk is current and the queue is empty or held by the prebuffer gate |
| Playback.StepPrebufferFlip | src/edubuddy/realtime_agent.py:194-201 | a turn never grows the queue, ends prebuffering only by dequeuing from a queue of at least 3 chunks, and never turns prebuffering back on |
| Playback.FillPrebufferFlip | src/edubuddy/realtime_agent.py:189-206 | the whole normal path never grows the queue, ends prebuffering only by dequeuing from a queue of at least 3 chunks, and never turns prebuffering back on |
| Playback.NormalCallback | src/edubuddy/realtime_agent.py:185-234 | without an interrupt the frame is the first `k` pending samples followed by silence; the remaining `k..` stay pending; the reports tag exactly the samples played; a silent tail means the player is starved |
| Playback.CallbackGate | src/edubuddy/realtime_agent.py:191-198 | when prebuffering with fewer than 3 chunks queued and nothing current, the callback changes nothing, writes silence and reports nothing |
| Playback.CallbackPrebufferFlip | src/edubuddy/realtime_agent.py:114-234 | a callback ends prebuffering only on the normal path, and only by taking a chunk from a queue of at least 3; without an interrupt it never turns prebuffering back on, so only the interrupt paths rearm it |
| Playback.CallbackKeepsInv | src/edubuddy/realtime_agent.py:114-234 | every callback keeps the invariant |
| Playback.Callback | src/edubuddy/realtime_agent.py:114-234 | the frame always has exactly the device's frame length |
| Playback.InterruptWhileIdle | src/edubuddy/realtime_agent.py:120-131 | an interrupt with nothing current empties the queue, writes silence, reports nothing, rearms prebuffering and clears the flag |
| Playback.FlushIdle | src/edubuddy/realtime_agent.py:122-131 | the idle flush leaves the queue empty, prebuffering armed and the interrupt cleared, keeps the current chunk and position, and with nothing current leaves no audio pending |
| Playback.FadeSetupSpec | src/edubuddy/realtime_agent.py:134-139 | a new fade starts at 0 and runs over the rest of the chunk, capped at 576 samples; a fade already under way is kept; neither touches the queue or the position |
| Playback.FadeSetup | src/edubuddy/realtime_agent.py:134-139 | after the setup a fade is under way on the same chunk, position and queue, with the flags unchanged; a new fade starts at 0 and is at most 576 samples long |
| Playback.FadeLoop | src/edubuddy/realtime_agent.py:141-169 | the fading loop never writes more than the free room |
| Playback.FadeLoopContinues | src/edubuddy/realtime_agent.py:143-169 | a fading turn that goes on ramps one segment in front of the rest of the loop |
| Playback.FadeLoopOneSegment | src/edubuddy/realtime_agent.py:141-169 | the loop ramps the next `k = min(room, fade left)` samples of the current chunk, advances the position and the fade counter by the same `k`, and reports one segment |
| Playback.InterruptFades | src/edubuddy/realtime_agent.py:133-183 | with a current chunk the frame is the ramped continuation of that chunk followed by silence; no queued audio is played; a completed fade drops the chunk and the queue, rearms prebuffering and clears the flag; an unfinished fade fills the whole frame |
| Playback.FadeComplete | src/edubuddy/realtime_agent.py:172-182 | a completed fade leaves nothing current, nothing queued and no audio pending, with prebuffering armed, the interrupt cleared and no fade under way |
| Playback.FadeFinishesWithinFrame | src/edubuddy/realtime_agent.py:120-183 | a frame of at least 576 samples always ends the interruption: nothing current, nothing queued, no fade, prebuffering armed, flag cleared |
| Playback.RampSampleBounds | src/edubuddy/realtime_agent.py:150-156 | a faded sample is an int16 value, has the sign of the original, is no louder than it, and equals it at the start of the fade |
| Playback.GainBounds | src/edubuddy/realtime_agent.py:155 | the ramp's gain lies in (0, 1] and is 1 for the fade's first sample |
| Playback.GainDecreasing | src/edubuddy/realtime_agent.py:152-155 | the gain falls strictly from each sample of the fade to every later one |
| Playback.ScaledBounds | src/edubuddy/realtime_agent.py:156 | scaling by a gain in (0, 1], clipping and casting keep the sign, never make a sample louder and stay in int16 range |
| Playback.Ramped | src/edubuddy/realtime_agent.py:150-156 | the ramped segment has as many samples as the source segment |
| Playback.DispatchEffects | src/edubuddy/realtime_agent.py:437-467 | `audio` appends exactly one upsampled chunk at the queue tail, so its samples become the end of the pending audio, and changes nothing else; `audio_interrupted` sets prebuffering and the interrupt flag; every other event leaves the state unchanged; the invariant is kept |
| Playback.Dispatch | src/edubuddy/realtime_agent.py:437-457 | no event touches the current chunk, its position or the fade; the queue grows by exactly one chunk on `audio` and is otherwise the same length; the interrupt is raised by `audio_interrupted` and otherwise kept |
| Playback.CaptureSpec | src/edubuddy/realtime_agent.py:393-404 | a block is held back exactly when the assistant is playing and the energy is below 0.12 (otherwise the block is sent unchanged); the interrupt is raised exactly when the user talks over the assistant; nothing else changes |
| Playback.Capture | src/edubuddy/realtime_agent.py:393-404 | a block that is sent is the block given; the current chunk, its position and the queue are untouched; the interrupt is raised only when the energy reaches the threshold or it was already set |
| Playback.AsWrittenStallsOnEmptyChunk | src/edubuddy/realtime_agent.py:208-234 | as written, a dequeued empty chunk makes a turn that copies nothing and leaves the same state, forever; the corrected turn drops it |
| Playback.AsWrittenAgrees | src/edubuddy/realtime_agent.py:208-234 | when no queued chunk is empty, the turn as written and the corrected turn are the same |
| Versions.ParseComponentsSpec | src/edubuddy/version.py:100-101 | `map(int, parts)` succeeds exactly when every part parses, gives each part's value in order, and otherwise names the first part `int()` rejects |
| Versions.ParseComponents | src/edubuddy/version.py:100-101 | a successful parse has one value per part |
| Versions.VersionTuple | src/edubuddy/version.py:100-101 | a parsed version has one component per dot-separated piece; a failure names one of the pieces, and `int()` rejects it |
| Versions.CompareVersions | src/edubuddy/version.py:86-111 | the result is -1, 0 or 1 exactly when both strings parse; -1, 0 and 1 each hold iff the tuples are less, equal or greater |
| Versions.TupleLessIsLexLess | src/edubuddy/version.py:106-108 | tuple `<` is the lexicographic order: the first differing component decides, and a proper prefix is smaller |
| Versions.TupleLess | src/edubuddy/version.py:106-108 | a tuple is never less than an equal tuple |
| Versions.TupleLessIrreflexive | src/edubuddy/version.py:106-108 | no tuple is less than itself |
| Versions.TupleLessAsymmetric | src/edubuddy/version.py:106-108 | tuple `<` is asymmetric |
| Versions.TupleLessTransitive | src/edubuddy/version.py:106-108 | tuple `<` is transitive |
| Versions.TupleLessTrichotomy | src/edubuddy/version.py:106-111 | any two tuples are equal or one is less than the other |
| Versions.TupleLessPrefix | src/edubuddy/version.py:106 | a tuple is less than any proper extension of it |
| Versions.CompareReflexive | src/edubuddy/version.py:106-111 | a valid version compares equal to itself |
| Versions.CompareAntisymmetric | src/edubuddy/version.py:106-111 | swapping the arguments negates the result, and both directions fail or succeed together |
| Versions.CompareTransitive | src/edubuddy/version.py:100-111 | `<=` on versions is transitive, strictly if either step is strict |
| Versions.CompareIsLexicographic | src/edubuddy/version.py:100-108 | -1 means exactly that the integer components are lexicographically smaller |
| Versions.CompareExtension | src/edubuddy/version.py:103-106 | a version is older than itself with more components appended |
| Versions.CompareNumeric | src/edubuddy/version.py:101-111 | single-component versions compare as integers |
| Versions.IsNewerVersion | src/edubuddy/version.py:113-123 | succeeds exactly when the comparison does; `true` exactly when `compare(version, current) == 1` |
| Versions.IsNewerAsymmetric | src/edubuddy/version.py:113-123 | if `b` is newer than `a`, then `a` is not newer than `b` |
| Versions.TestedComparisons | tests/test_version.py:89-104 | the tested comparisons of "1.0.0", "1.0.1", "1.1.0" and "2.0.0" give 0, -1 and 1 as asserted |
| Versions.TestedNewer | tests/test_version.py:106-113 | "0.2.0" and "1.0.0" are newer than "0.1.0" |
| Versions.TestedNotNewer | tests/test_version.py:106-115 | "0.1.0" and "0.0.9" are not newer than "0.1.0" |
| Versions.TenIsAfterNine | src/edubuddy/version.py:101 | "1.10.0" is newer than "1.9.0": components are numbers, not text |
| Versions.NonNumericFails | src/edubuddy/version.py:101 | "1.x.0" makes the comparison fail with a `ValueError` on "x" |
| Versions.ShorterIsOlder | src/edubuddy/version.py:103-106 | "1.0" is older than "1.0.0" |
| PyStr.Split | src/edubuddy/version.py:101 | `split('.')` gives at least one part, no part contains the separator, and joining the parts gives the string back |
| PyStr.SplitJoin | src/edubuddy/version.py:101 | splitting a join of separator-free parts gives the parts back |
| PyStr.ParseInt | src/edubuddy/version.py:101 | `int()` accepts a digit run with its decimal value, and a negative result comes only from a leading '-' |
| PyStr.ParseIntToString | scripts/version.py:59-77 | `int(str(n)) == n` for every integer |
| PyStr.NatToStringValue | scripts/version.py:77 | the decimal digits written for `n` have the value `n` |
| PyStr.IntToString | scripts/version.py:77 | `str(n)` is non-empty and starts with a minus sign exactly when `n` is negative |
| VersionScript.SearchVersion | scripts/version.py:21-23 | a match exists exactly when `re.search` finds one; the captured value is non-empty and quote-free, and the matched line starts at the leftmost match |
| VersionScript.FirstMatchLeftmost | scripts/version.py:21 | the match found is the leftmost one, and when none is found none exists anywhere |
| VersionScript.MatchAtSound | scripts/version.py:21 | a match is the marker, a non-empty quote-free value and a closing quote |
| VersionScript.MatchAtComplete | scripts/version.py:21 | every marker followed by a non-empty quote-free value and a quote is a match of exactly that value |
| VersionScript.MatchAt | scripts/version.py:21 | a match at the start of the text begins with the marker, has a non-empty value, and its closing quote lies inside the text |
| VersionScript.FirstMatch | scripts/version.py:21 | a match found lies inside the text |
| VersionScript.GetCurrentVersion | scripts/version.py:14-24 | a missing file or no match gives "0.1.0"; otherwise the first match's quoted value |
| VersionScript.Rewrite | scripts/version.py:35-39 | text without a match is left unchanged |
| VersionScript.RewriteKeepsUnmatched | scripts/version.py:35-39 | text before the first match is kept as it is |
| VersionScript.RewriteFirstMatch | scripts/version.py:35-39 | the first match is replaced by `__version__ = "<new>"`, the text before it is kept, and the rewrite goes on after the match |
| VersionScript.RewriteIdempotent | scripts/version.py:35-43 | rewriting twice with the same quote-free version equals rewriting once |
| VersionScript.RewriteThenSearch | scripts/version.py:21-39 | after a rewrite of text that had a version line, extraction reads back the new version |
| VersionScript.FormatVersionRoundTrip | scripts/version.py:59-77 | formatting `major.minor.patch` and then splitting and int-parsing gives the same triple |
| VersionScript.FormatVersion | scripts/version.py:77 | the formatted version is non-empty and starts with a minus sign exactly when the major number is negative |
| VersionScript.FormatVersionPassesCheck | scripts/version.py:77-105 | a formatted triple of naturals passes the `set` format check |
| VersionScript.VersionFormatSound | scripts/version.py:105 | a string that passes the check is three digit runs joined by dots |
| VersionScript.VersionFormatComplete | scripts/version.py:105 | three digit runs joined by dots always pass the check |
| VersionScript.VersionFormatQuotable | scripts/version.py:105-110 | a value that passes the check is non-empty and has no quote, so it can be written into the version line |
| VersionScript.IsVersionFormat | scripts/version.py:105 | a string that passes the check is at least five characters long and starts and ends with a digit |
| VersionScript.BumpVersion | scripts/version.py:49-77 | fails with the format error exactly when there are not three parts; fails exactly when there are not three parts, a part is not an integer, or the bump type is unknown |
| VersionScript.BumpArithmetic | scripts/version.py:64-77 | `major` gives (M+1, 0, 0), `minor` gives (M, m+1, 0), `patch` gives (M, m, p+1) |
| VersionScript.BumpIsNewer | scripts/version.py:64-77 | the bumped version compares greater than the current one and `is_newer_version` says so |
| VersionScript.BumpKeepsFormat | scripts/version.py:64-77 | bumping a version that passes the check gives one that passes it too |
| VersionScript.CheckSetValue | scripts/version.py:99-108 | `set` accepts exactly the values that pass the check, unchanged, and gives the missing-value error for none or an empty value |
| VersionScript.UpdateVersion | scripts/version.py:27-46 | a missing file fails; the content is written only when the rewrite changes it, and then it is the rewrite; otherwise it is unchanged |
| VersionScript.RunCommand | scripts/version.py:80-123 | exactly `show` prints a version; a write always changes the file's content; `set` or `bump` on a missing file fails |
| VersionScript.SetWrites | scripts/version.py:99-110 | `set` writes only a value that passes the check, and only into a file with a version line |
| VersionScript.SetThenShow | scripts/version.py:95-110 | after a `set` that writes, `show` reports the new version |
| VersionScript.SetTwice | scripts/version.py:99-110 | a second `set` of the same version changes nothing |
| VersionScript.BumpWrites | scripts/version.py:112-123 | a `bump` that writes has bumped the current version and written its rewrite |
| VersionScript.BumpThenShow | scripts/version.py:112-123 | after a `bump` that writes, the version read back is newer than the one before |

## Left out

- Audio devices are not modelled: the input and output streams, `run`, `start_audio_recording`, and querying, starting and closing devices. The callback's `time` and `status` arguments are ignored.
- Concurrency is not modelled. The callback, the event handler and each capture turn are atomic steps run one after another. `queue.Queue` thread safety is not modelled, and `threading.Event` is a plain boolean field.
- The 24 kHz to 48 kHz `resample_poly` is a function parameter of `OnEvent`. The microphone's `rms_energy` is a `real` parameter of `CaptureBlock`. The downsampling of the microphone block is done before the block is passed in.
- The `while self.recording` capture loop, `read_available`, the sleeps and the energy logging are not modelled. Only the barge-in branch of one turn is.
- `send_audio`, the playback tracker and the agents SDK session are foreign. A send is the block `CaptureBlock` returns, and tracker calls are the ghost `reports` log.
- RealtimeAgent.NoUIDemo.OutputCallback: a report counts samples, not the bytes of `tobytes()`. The source sends 8 bytes per float64 sample on the normal path and 2 bytes per int16 sample on the fade path.
- Samples are unbounded integers, and `upsample` is assumed to return values in the int16 range. The source stores `resample_poly`'s float64 output in the chunk and casts it to int16 only when it is assigned into `outdata`. For in-range values that cast truncates toward zero, and it is folded into the integer-valued `upsample` parameter.
- Out-of-range resampler output is not modelled. The normal path casts it into `outdata` without clipping (src/edubuddy/realtime_agent.py:217), which wraps in a platform-dependent way. The fade path (line 156) and the microphone downsampling (line 359) clip first. So for such values the source's output can differ from the model's by up to 65535.
- Playback.RampSample: the gain `1 - idx / total` and the product are exact reals, not float32. The clip and the int16 cast are modelled. The fade path scales float32 copies of the chunk's float64 values (src/edubuddy/realtime_agent.py:150), so for in-range values a faded sample in the source can differ by one from `RampSample` applied to the already-integral chunk.
- Printing, `print`-only event branches and the exception handlers around the tracker and the dispatcher are not modelled. A case the model cannot express: an `audio` payload of odd byte length. There `np.frombuffer(..., dtype=np.int16)` raises ValueError (src/edubuddy/realtime_agent.py:439), the handler at 468-469 catches it, and no state changes. `Event.Audio` carries already-decoded samples, so every audio event enqueues a chunk.
- The `RealtimeSessionEvent` type is replaced by the `Event` datatype. The `raw_model_event` and error branches only print, so they leave the state unchanged.
- `get_version`, `get_version_info`, `print_version_info`, `get_version_changelog` and `VersionManager.__init__` use package metadata, `sys` and `print`, so they are not modelled. `is_newer_version` takes the current version as a parameter.
- File reads and writes, `sys.exit` and argparse in the version script are not modelled. A file is an `Option<string>`, a command's outcome is a value and an exit is a `Failed` outcome.
- PyStr.ParseInt: `int()` is modelled on an optional '-' or '+' followed by ASCII digits. Python also accepts surrounding whitespace, underscores and non-ASCII digits.
- VersionScript.IsVersionFormat: `\d` is ASCII digits only, and `$` does not match before a trailing newline as Python's does.
- VersionScript.Rewrite: the replacement text is taken literally. `re.sub` would also process backslash escapes in it, but every version the commands write is made of digits, dots and minus signs (a `bump` of "-1.2.3" writes "-1.2.4"), never a backslash.
- logger.py, time_service.py, cli.py and `__init__.py` are not part of this model.

## Findings

| source | as written | input that shows it | evidently intended | confidence | as-written member | corrected member |
|---|---|---|---|---|---|---|
| src/edubuddy/realtime_agent.py:214-234 | the used-up-chunk reset sits inside `if samples_to_copy > 0`, so a chunk with no samples is never dropped | an `audio` event with empty audio data, followed by an output callback once prebuffering is over: the filling loop copies nothing and keeps the same state on every turn, so the callback never returns | drop a used-up chunk whether or not anything was copied | not executed; medium, it depends on an empty chunk reaching the queue | Playback.AsWrittenStallsOnEmptyChunk | Playback.FillStep |

`Playback.FillStepAsWritten` and `Playback.CopyAsWritten` model the turn as written. `Playback.AsWrittenAgrees` proves that it behaves like the corrected turn whenever no queued chunk is empty. `RealtimeAgent.NoUIDemo.CopyFromCurrent` implements the corrected turn.
