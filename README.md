# Status markers and dummy core-server data shaping of the SmartSpectra C++ examples

This project models the self-contained logic of two example programs. The rest
of those programs hands its work to the closed Physiology SDK.

- **Status-marker files** (`image_file_folder_continuous_example/main.cc`).
  When a status directory is configured, the example installs an
  `OnStatusChange` hook on the foreground container. On every change of
  preprocessing status, the hook reads the clock in microseconds since the
  epoch and builds the name `<timestamp>_<code>`. The timestamp is zero-padded
  to at least 16 characters and the status code to at least 2. The hook then
  opens and closes a file of that name in the status directory. It returns
  `OkStatus`, or an error with the `Internal` code whose message names the path.
  - Module `MarkerName` holds the name as a pure function, `FormatMarker`, and
    its inverse, `ParseMarker`. It proves the layout, the round trip both ways,
    lexicographic order, injectivity and the worked example from the flag's
    help text.
  - Module `StatusNotifier` holds the path join, a `FileSystem` object whose
    `files` map the hook updates, the container's hook field, the hook itself
    and the set-up that installs it.
  - The clock reading and the outcome of opening the file are parameters.
- **Dummy Physiology Core server** (`grpc_continuous_example/example_physiology_core_grpc_server.py`).
  - Module `ConstantMetrics` models the uniform mode. A `MetricsBuffer` holds
    six series as sequence fields. `GenerateAndAppendConstantMetrics` appends
    constant entries to them in a loop, one second at a time. The six series
    keep one time line: 0, 1, 2, … seconds, the same at each index.
  - Module `PreprocessedConversion` models the two conversions of received
    frame data. Each allocates its arrays and fills them cell by cell. Element
    types are generic.

Three behaviours of the hook are easy to miss:

- A timestamp of more than 16 digits, or a code of more than 2, is written with
  all its digits. The field widths are minimums, so the name gets longer and
  nothing fails.
- Opening the marker truncates any existing file of the same name.
- A failed open returns `absl::InternalError`.

## Model

| member | source | states |
|---|---|---|
| `MarkerName.FormatMarker` | image_file_folder_continuous_example/main.cc:149-151 | the marker name for a clock reading and a status code: never shorter than 19 characters, and starting with a digit. Its partner lemmas below state its layout (`MarkerLayout`, `InRangeShape`), its inverse (`ParseFormat`, `FormatParse`), its order (`MarkerOrder`) and its injectivity (`MarkerNameInjective`) |
| `MarkerName.TimestampText` | image_file_folder_continuous_example/main.cc:150 | the timestamp field is at least 16 characters, all digits, and denotes the clock reading exactly |
| `MarkerName.CodeText` | image_file_folder_continuous_example/main.cc:150-151 | the code field is at least 2 characters; for a non-negative code it is all digits and denotes the code exactly |
| `MarkerName.IntText` | image_file_folder_continuous_example/main.cc:151 | the text of `static_cast<int>(status)` is non-empty and starts with '-' exactly when the code is negative |
| `MarkerName.Decimal` | image_file_folder_continuous_example/main.cc:150-151 | the shortest decimal text of a number: at least one digit, only digits, a leading '0' only for zero |
| `MarkerName.DecimalValue` | image_file_folder_continuous_example/main.cc:150-151 | reading the decimal text back gives the number written |
| `MarkerName.PadLeft` | image_file_folder_continuous_example/main.cc:150-151 | `setw` with `setfill`: the field is as wide as the larger of the text and the width, the text stands whole at its right end, and fill characters are to its left |
| `MarkerName.PaddedDecimal` | image_file_folder_continuous_example/main.cc:150-151 | zero padding keeps the value: a padded field is all digits and denotes the number |
| `MarkerName.MarkerLayout` | image_file_folder_continuous_example/main.cc:149-151 | for every timestamp and non-negative code: the name is the timestamp's digits in a field of at least 16, '_' at the end of that field, and the code's digits in a field of at least 2; each field denotes its number, so no digit is lost |
| `MarkerName.InRangeShape` | image_file_folder_continuous_example/main.cc:129-133 | for a timestamp below 10^16 and a code in 0..99, the name is exactly 19 characters, '_' at index 16 and decimal digits elsewhere |
| `MarkerName.OutOfRangeLonger` | image_file_folder_continuous_example/main.cc:150-151 | the widths are minimums: a timestamp of 10^16 or more, or a code of 100 or more, makes the name longer than 19 |
| `MarkerName.WorkedExample` | image_file_folder_continuous_example/main.cc:132 | timestamp 0 with code 0 gives "0000000000000000_00" |
| `MarkerName.ParseMarker` | image_file_folder_continuous_example/main.cc:129-133 | reading a name of the documented layout yields a timestamp below 10^16 and a code below 100 |
| `MarkerName.ParseFormat` | image_file_folder_continuous_example/main.cc:129-133 | for in-range inputs, the 16 leading and 2 trailing digits of the name read back as exactly the timestamp and the code |
| `MarkerName.FormatParse` | image_file_folder_continuous_example/main.cc:129-133 | conversely, every text that reads as a marker is the name of what it reads as, so the documented layout and the in-range inputs correspond one to one |
| `MarkerName.MarkerOrder` | image_file_folder_continuous_example/main.cc:150-151 | for in-range inputs, one name sorts before another lexicographically exactly when its (timestamp, code) pair is smaller, so later status changes sort after earlier ones |
| `MarkerName.MarkerNameInjective` | image_file_folder_continuous_example/main.cc:149-151 | for any timestamps and non-negative codes, equal names mean equal timestamps and equal codes |
| `StatusNotifier.JoinPath` | image_file_folder_continuous_example/main.cc:152 | POSIX `path / name`: an absolute name replaces the directory; otherwise the result starts with the directory and ends with the name, with one '/' between them exactly when the directory is non-empty and does not end in '/' |
| `StatusNotifier.MarkerPath` | image_file_folder_continuous_example/main.cc:152 | the marker path begins with the status directory and ends with the whole marker name |
| `StatusNotifier.WriteFailure` | image_file_folder_continuous_example/main.cc:156-158 | the failure is an error with the `Internal` code, and its message ends with the path that could not be written |
| `StatusNotifier.MarkerPathInjective` | image_file_folder_continuous_example/main.cc:149-152 | in one status directory, markers of distinct status changes go to distinct paths; two changes share a marker only when both the microsecond and the code coincide |
| `StatusNotifier.FileSystem.OpenAndClose` | image_file_folder_continuous_example/main.cc:153-160 | opening for writing and closing: on success the file exists and is empty, otherwise the files are unchanged |
| `StatusNotifier.FileForegroundContainer.OnStatusChange` | image_file_folder_continuous_example/main.cc:144-163 | the marker path is the status directory joined with the marker name. If the open fails, the hook returns the `Internal` error "Could not write status file " + path and the files are unchanged. Otherwise it returns `OkStatus` and the path holds an empty file. Nothing else changes |
| `StatusNotifier.FileForegroundContainer.constructor` | image_file_folder_continuous_example/main.cc:139 | a new container has no status hook |
| `StatusNotifier.RunFileContinuousPreprocessing` | image_file_folder_continuous_example/main.cc:139-144 | a failure to create the status directory is returned at once; otherwise the hook is installed exactly when the status directory path is non-empty |
| `ConstantMetrics.MetricsBuffer.constructor` | grpc_continuous_example/example_physiology_core_grpc_server.py:185 | a new metrics buffer has six empty series |
| `ConstantMetrics.PulseRateAt` | grpc_continuous_example/example_physiology_core_grpc_server.py:152 | the pulse-rate entry of a second: value 38.0, confidence 1.0, `stable` left at its default false. A constant with no contract of its own; `AppendSecond` and `GenerateAndAppendConstantMetrics` state where it goes |
| `ConstantMetrics.PulseTraceAt` | grpc_continuous_example/example_physiology_core_grpc_server.py:153 | the pulse-trace entry of a second: value 0.5, `stable` false. A constant, placed by `AppendSecond` |
| `ConstantMetrics.BreathRateAt` | grpc_continuous_example/example_physiology_core_grpc_server.py:154 | the breath-rate entry of a second: value 12.0, confidence 1.0, `stable` false. A constant, placed by `AppendSecond` |
| `ConstantMetrics.BreathTraceAt` | grpc_continuous_example/example_physiology_core_grpc_server.py:155-156 | the entry of both breathing traces, upper and lower: value 0.5, `stable` false. A constant, placed by `AppendSecond` |
| `ConstantMetrics.PhasicPressureAt` | grpc_continuous_example/example_physiology_core_grpc_server.py:157 | the phasic-pressure entry of a second: value 70.0, confidence 1.0, `stable` false. A constant, placed by `AppendSecond` |
| `ConstantMetrics.RangeLength` | grpc_continuous_example/example_physiology_core_grpc_server.py:151 | how many seconds `range` yields: the length, or none for a negative length. It has no contract of its own; `GenerateAndAppendConstantMetrics` states the entry count through it |
| `ConstantMetrics.MetricsBuffer.AppendSecond` | grpc_continuous_example/example_physiology_core_grpc_server.py:152-157 | one loop step: each of the six series gains exactly its constant entry for the given second, in order (pulse rate 38.0 with confidence 1.0, pulse trace 0.5, breath rate 12.0 with confidence 1.0, upper and lower breath traces 0.5, phasic pressure 70.0 with confidence 1.0) |
| `ConstantMetrics.GenerateAndAppendConstantMetrics` | grpc_continuous_example/example_physiology_core_grpc_server.py:147-157 | each of the six series gains exactly max(n, 0) entries, with n = 1 by default. The k-th new entry carries the series' constants at second start + k. The earlier entries are untouched. A buffer on one time line stays on one time line. The start is the corrected `InitialTimeSecond`: on a non-empty buffer the code as written raises instead (see Findings) |
| `ConstantMetrics.InitialTimeSecond` | grpc_continuous_example/example_physiology_core_grpc_server.py:148-150 | generation starts at 0 on an empty buffer, and after the last pulse-rate time otherwise (the corrected reading of these lines) |
| `ConstantMetrics.InitialTimeSecondAsWritten` | grpc_continuous_example/example_physiology_core_grpc_server.py:148-150 | as written, the start is 0 on an empty buffer, and a non-empty buffer raises; where it succeeds it agrees with the corrected start |
| `ConstantMetrics.AsWrittenRaisesOnFilledBuffer` | grpc_continuous_example/example_physiology_core_grpc_server.py:149-150 | on the 4-second buffer that uniform `GetMetrics` produces, the code as written raises where the evident intent resumes at second 4 |
| `ConstantMetrics.InitialTimeContinues` | grpc_continuous_example/example_physiology_core_grpc_server.py:148-151 | on a buffer whose times are 0..n-1, generation resumes at second n |
| `ConstantMetrics.TimelineStep` | grpc_continuous_example/example_physiology_core_grpc_server.py:151-157 | appending the constants of the next second to all six series keeps them equally long, index-aligned in time and consecutive from 0 |
| `ConstantMetrics.AppendKeepsTimeline` | grpc_continuous_example/example_physiology_core_grpc_server.py:147-157 | appending n seconds to all six series from the second after the last keeps their common time line |
| `ConstantMetrics.DummyPhysiologyServer.constructor` | grpc_continuous_example/example_physiology_core_grpc_server.py:162-166 | the server keeps its seed and uniform-mode settings |
| `ConstantMetrics.DummyPhysiologyServer.GetMetrics` | grpc_continuous_example/example_physiology_core_grpc_server.py:185-190 | uniform mode: a fresh buffer whose six series hold exactly 4 constant entries each, at seconds 0..3, on one time line |
| `PreprocessedConversion.PreprocessedHeartRateDataNumpy.constructor` | grpc_continuous_example/example_physiology_core_grpc_server.py:26-34 | the record keeps the arrays and the time it is given |
| `PreprocessedConversion.PreprocessedRespiratoryRateDataNumpy.constructor` | grpc_continuous_example/example_physiology_core_grpc_server.py:44-52 | the record keeps the arrays, the reset flag and the time it is given |
| `PreprocessedConversion.PreprocessedProtoHrToNumpy` | grpc_continuous_example/example_physiology_core_grpc_server.py:61-84 | fails exactly when there is no ROI. Otherwise the face landmarks form an n x 2 array with row i = (x_i, y_i). ROI 0 becomes the 1 x 3 face average and ROI i >= 1 becomes row i-1 of the ROI averages, which have one row fewer than the input. The frame time passes through unchanged |
| `PreprocessedConversion.PreprocessedProtoRrToNumpy` | grpc_continuous_example/example_physiology_core_grpc_server.py:87-98 | tracked points become an n x 2 array with row i = (x_i, y_i); the labels array equals the input labels, with the same length and order; `reset` and the frame time pass through unchanged |

## Left out

- The frame-folder reader is not part of this model: the file-stream path, end-of-stream token, rescan delay, erasing read files and looping. Their flag values are only handed to the SDK's video-source settings (image_file_folder_continuous_example/main.cc:192-196). No visible code implements them.
- Flag declarations and the construction of `Settings` in every `main.cc` are left out. They are configuration handed to the closed SDK.
- The container's `Initialize` and `Run` are foreign calls with no visible bodies. `RunFileContinuousPreprocessing` models the set-up before them.
- `CreateDirectoryIfMissing` is also a foreign call. Its outcome is a parameter, and a failure is passed through with its code and message. Which codes it can produce depends on the SDK.
- The clock (`high_resolution_clock::now`) is read by the caller. The hook takes the reading as an unsigned 64-bit parameter. The variable the source calls `epoch_ms` holds microseconds.
- Whether opening the marker file succeeds depends on the file system. The hook takes that outcome as a parameter. The success log line is left out.
- Concurrent invocations of the hook from the SDK are not modelled. Each call is one atomic step on the `FileSystem` object.
- `MarkerName.MarkerLayout`: stated for non-negative status codes only, because the codes come from a status enumeration whose values are non-negative. `FormatMarker` itself also renders a negative `int`, with its sign.
- `MarkerName.MarkerNameInjective`: stated for non-negative status codes only, for the same reason.
- `StatusNotifier.MarkerPathInjective`: stated for non-negative status codes only, for the same reason.
- `ConstantMetrics.GenerateAndAppendConstantMetrics`: starts at the corrected start second. On a non-empty buffer the code as written raises a TypeError and appends nothing, while this method appends. `InitialTimeSecondAsWritten` models the as-written behaviour; see Findings.
- `ConstantMetrics.DummyPhysiologyServer.GetMetrics`: models only the uniform branch. The other branch, the seeding and `generate_and_append_random_metrics` produce random floating-point values.
- The same start-time defect as in the Findings table also sits in the random generator (grpc_continuous_example/example_physiology_core_grpc_server.py:119-120). That generator is left out.
- `PreprocessedConversion.PreprocessedProtoHrToNumpy`: copies elements without the conversions to `int32` and `float32` that the arrays' dtypes apply. Element types are generic.
- `PreprocessedConversion.PreprocessedProtoRrToNumpy`: copies elements without the `float32` and `int32` conversions, for the same reason.
- gRPC servicer plumbing is left out as transport, logging and concurrency: `AddPreprocessedData` and its printing, `IssueBlueTooth`, `SetBufferDuration`, `ResetProcessing`, `main`, the thread pool and the `__str__` methods.
- Headless-mode warnings and process exit codes in each `main` are left out. They are logging only.

## Findings

| source | as written | input that shows it | evidently intended | confidence | as-written member | corrected member |
|---|---|---|---|---|---|---|
| grpc_continuous_example/example_physiology_core_grpc_server.py:149-150 | on a non-empty buffer, the start second is the last pulse-rate message plus 1, not that message's time plus 1, so Python raises a TypeError before anything is appended | any buffer with at least one pulse-rate entry, such as the 4-second buffer uniform `GetMetrics` returns, given to `generate_and_append_constant_metrics` again | continue at the last entry's time + 1, keeping the six series on one consecutive time line | high; not executed | `ConstantMetrics.InitialTimeSecondAsWritten` | `ConstantMetrics.InitialTimeSecond` |
