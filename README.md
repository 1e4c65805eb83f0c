# cool_player core in Dafny

cool_player is a small command-line audio player. It decodes a file with
FFmpeg, resamples it to interleaved stereo signed 16-bit samples, scales every
sample by a user-chosen volume, and writes the result to a PortAudio stream.
This project models the parts of it that are the program's own logic rather
than library plumbing:

- **The argument table** (`ArgTable`, `arg_table.dfy`). This is the
  `ArgParser` class. It registers options under one or more alias names, then
  walks `argv`. Each token is read as a long option `--key=value`, a long or
  short option that may swallow the next token as its value, or a positional
  word. Parsing calls the option's callback, reports unknown keys and collects
  the positional words. The class keeps its state as Dafny fields:
  - the name map `argMap`;
  - the list of owned option records `args`;
  - the positional list;
  - a trace of callback calls and unknown-argument reports.

  `Parse` is the source's loop, including the index that jumps over a consumed
  value. It is proved equal to the recursive specification `ParseFrom`, and
  the properties of parsing are lemmas about `ParseFrom`.
- **The driver** (`Playback`, `playback.dfy`):
  - the usage check on `argc`;
  - the policy that turns the optional second argument into a linear gain;
  - the buffer arithmetic of one decoded frame;
  - the gain stage, which rewrites the first `converted * 2` samples of the
    buffer in place. It truncates the scaled sample toward zero and clamps it
    to [-32768, 32767].

`Options` (`option.dfy`) holds the optional-value datatype both use.

Two behaviours of the code are easy to miss, and the model keeps both:
- A volume argument above 100 is used as a linear factor as it stands, not
  clamped (`main.cpp:13-14`).
- An option can be registered under the empty name. Then the tokens `--` and
  `--=x` call it instead of being ignored, because the code looks the key up
  before it tests whether the key is empty (`src/ArgParser.cpp:55-60`).

## Model

| member | source | states |
|---|---|---|
| `ArgTable.IndexOfSound` | src/ArgParser.cpp:27 | The search for `=` returns the first occurrence; it returns nothing exactly when there is no `=` |
| `ArgTable.ScanSound` | src/ArgParser.cpp:26-53 | A token is positional exactly when it is not a dash followed by at least one character. `--key=value` splits at the first `=`, so the key holds no `=`. `--key` keeps a key without `=`. `-key` keeps the whole remainder as the key |
| `ArgTable.ScanAssignment` | src/ArgParser.cpp:26-31 | `--name=value` is read back as key `name` and value `value` for any name without `=` and any value, including values that contain `=` |
| `ArgTable.ScanLong` | src/ArgParser.cpp:32 | `--name` without `=` is read back as the bare key `name` |
| `ArgTable.ScanShort` | src/ArgParser.cpp:41-42 | `-name` is read back as the bare key `name`, whole: there is no bundling and no `=` split |
| `ArgTable.ShortOptionKeepsEquals` | src/ArgParser.cpp:42 | `-k=v` is the short option named `k=v` |
| `ArgTable.Dispatch` | src/ArgParser.cpp:55-62 | One key occurrence causes at most one callback call or report |
| `ArgTable.ParseFrom` | src/ArgParser.cpp:21-64 | Parsing from index `i` adds at most one positional word or event per visited token |
| `ArgTable.Roles` | src/ArgParser.cpp:22-53 | Parsing gives every token from index `i` on exactly one role: key, value or positional |
| `ArgTable.CallbacksBounded` | src/ArgParser.cpp:22-58 | Parsing `argv` makes at most `argc - 1` callback calls and positional words together |
| `ArgTable.EventsAreSound` | src/ArgParser.cpp:55-62 | A callback call is only ever for a registered record whose callback is set. A report is only ever for a dashed token of `argv` whose key is non-empty and unregistered |
| `ArgTable.PositionalsInArgvOrder` | src/ArgParser.cpp:50-53 | The positional list is exactly the tokens in the positional role, in `argv` order. So a token consumed as a value is never positional |
| `ArgTable.RolesFollowTokens` | src/ArgParser.cpp:32-49 | A token is a value exactly when the token before it is a key whose registered option requires a value. Any other token is positional exactly when it is not dashed, and a key otherwise |
| `ArgTable.ParseRendered` | src/ArgParser.cpp:21-64 | Round trip: parsing a command line spelled from intended items gives back the items' words and exactly the callback calls and reports the items mean. The items cover registered options in every accepted spelling, and unregistered `--name`, `--name=value` and `-name` tokens: those are reported, except that an empty name (`--`, `--=x`) is ignored. This holds after any prefix of tokens |
| `ArgTable.TrailingOptionGetsEmptyValue` | src/ArgParser.cpp:32-48 | A long or short option that requires a value but is the last token of `argv` consumes nothing; its callback, if set, receives the empty value |
| `ArgTable.CommandLineRoundTrip` | src/ArgParser.cpp:21-64 | The same round trip for a full `argv` whose entry 0 is the program name |
| `ArgTable.ArgParser.constructor` | include/ArgParser.hpp:31-33 | A new table has no names, no records, no positional words and no events |
| `ArgTable.ArgParser.AddOption` | src/ArgParser.cpp:4-19 | Appends one record with the given fields and the names as its aliases. Every name now maps to the new record. Other names keep their record. The table stays well formed |
| `ArgTable.ArgParser.Parse` | src/ArgParser.cpp:21-64 | Appends to the positional list and to the trace exactly what `ParseFrom` gives for `argv` from index 1 |
| `Playback.SelectVolume` | main.cpp:10-16 | An argument in [1, 100] gives that percentage (argument / 100). Any other non-negative argument is the gain as it stands. An absent or negative argument gives 1. Hence the gain is never negative, never more than a non-negative argument, and exceeds 1 exactly when the argument exceeds 100 |
| `Playback.Startup` | main.cpp:4-16 | Fewer than two `argv` entries give exit code 1. Otherwise the run plays `argv[1]` at a non-negative gain: 1 when there is no second argument, and the volume policy applied to the parsed `argv[2]` when there is one |
| `Playback.TruncTowardZero` | main.cpp:126 | The integer is within 1 of the real and lies on its side of zero |
| `Playback.ClampToSample` | main.cpp:127-128 | The result is a 16-bit sample. A value in range is unchanged; a value above the range gives 32767 and one below gives -32768 |
| `Playback.GainSample` | main.cpp:126-130 | A processed sample is always in the 16-bit range |
| `Playback.GainAll` | main.cpp:125-131 | A processed run has the input's length and only 16-bit samples |
| `Playback.GainAllAt` | main.cpp:125-131 | The k-th processed sample is the k-th input sample through the gain stage |
| `Playback.UnityGain` | main.cpp:126-130 | Gain 1 leaves a 16-bit sample unchanged |
| `Playback.UnityGainAll` | main.cpp:125-131 | Gain 1 leaves a run of 16-bit samples unchanged |
| `Playback.AttenuationNeverClips` | main.cpp:126-130 | With a gain in [0, 1] the clamps never act. The output is no further from zero than the input and never has the other sign |
| `Playback.GainMonotone` | main.cpp:126-130 | Under a fixed non-negative gain, a larger input never gives a smaller output |
| `Playback.LoudPositiveSaturates` | main.cpp:127 | 30000 at gain 1.5 saturates at 32767 |
| `Playback.LoudNegativeSaturates` | main.cpp:128 | -30000 at gain 1.5 saturates at -32768 |
| `Playback.VolumeUpTo100NeverClips` | main.cpp:10-131 | A volume argument of at most 100, or none, never makes the gain stage clamp |
| `Playback.ApplyGain` | main.cpp:125-131 | The first `totalSamples` entries of the buffer become the processed run of their old values. Every entry after them is unchanged |
| `Playback.FrameFitsBuffer` | main.cpp:110-124 | If `converted <= maxOutSamples`, both the byte count and the sample span of the gain loop fit in a buffer of `maxOutSamples * 2 * 2` bytes, and they cover the same bytes |
| `Playback.OutputBuffer.constructor` | main.cpp:95 | The buffer starts empty |
| `Playback.OutputBuffer.Resize` | main.cpp:115 | Resizing gives the requested byte size. Samples that still fit are kept and new room is zero-filled |
| `Playback.OutputBuffer.ProcessFrame` | main.cpp:109-131 | After one frame the buffer holds `maxOutSamples * 2 * 2` bytes. Its first `converted * 2` samples are the processed resampler output. The byte count handed on is `converted * 2 * 2` and fits the buffer |

## Left out

- `src/AudioPlayer.cpp` and `include/AudioPlayer.hpp` are not part of this
  model. Every step there is an FFmpeg or PortAudio call whose behaviour lives
  in libraries outside the repository.
- The packet, decode and write loop of `main.cpp:93-140` and the setup calls
  of `main.cpp:18-92`, with their exit code 1 on failure, are library calls
  and are not modelled. The loop never flushes the decoder, so there is no
  drain to specify.
- `Pa_WriteStream` at `main.cpp:133-137` is not modelled. `ProcessFrame`
  returns the byte count it would write.
- `Playback.OutputBuffer.ProcessFrame` takes the resampler's output
  (`produced`) and its frame count (`converted`, at most `maxOutSamples`) as
  parameters. The negative error results of `swr_convert` and `av_samples_get_buffer_size`
  are outside the model.
- `Playback.Startup` takes `atof` as a function parameter. Text-to-number
  parsing is not modelled.
- `Playback.GainSample` uses an exact real product and truncation. It does not
  model single-precision rounding of `samples[i] * volume`, nor the undefined
  conversion to `int32_t` of a product beyond the 32-bit range, which only a
  very large volume can reach.
- Integer widths of `argc`, `i`, `converted` and the byte counts are
  unbounded in the model. The source's values stay far from the limits.
- Callbacks are modelled only as set or unset. Calling one appends an
  `Invoked` event with its value; what the callback itself does is not
  modelled.
- The unknown-argument message on standard error becomes an `Unknown` event
  carrying the token. `av_log_set_level` and other console output are left
  out.
- `ArgTable.Dispatch`: its own contract only bounds the events of one key.
  What the events are is stated by `EventsAreSound`, the round trip
  `ParseRendered` and `TrailingOptionGetsEmptyValue`.
- The option's `description` is stored but never read by the code shown.
- `printHelp` and `getPositionalArgs` are declared in
  `include/ArgParser.hpp:26-28` but not defined in the repository's sources,
  so they are not modelled.
- Record ownership through `std::unique_ptr` and the raw pointers in the name
  map are modelled as indices into the list of records.
