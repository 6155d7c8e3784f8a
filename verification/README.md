# indexr: import-specifier truncation and the index-file writer

indexr scans a directory for submodules and writes an index file that re-exports
them. This project models two stages of that pipeline in Dafny:

- **moduleDirectImport** turns a discovered submodule path into an import
  specifier. When `directImport` is set, the path passes through untouched.
  Otherwise it is cut down to what the regular expression `^.[^/]*` matches: the
  first character and everything up to the next `/`. So `/foo/bar` becomes `/foo`.
  When the pattern does not match, the `|| filePath` fallback returns the whole
  input. That happens for the empty string, and for a path whose first character
  is a line terminator, because JavaScript's `.` does not match line terminators.
- **toFile** is the index-file writer. It checks two guards in a fixed order: a
  falsy module path, then falsy contents. If both pass, it writes the contents to
  `path.resolve(modulePath, outputFilename)`. It then always reports
  `(null, 'File sucessfully written.')`, because its write callback ignores the
  write's error.

Files:

- `callback.dfy` (module `Callback`): `Option`, and `Call`, one invocation of a
  node-style `next(err, result)` continuation.
- `options.dfy` (module `Options`): the resolved configuration record.
- `direct_import.dfy` (module `DirectImport`): the regular-expression match, the
  truncation, the stage itself, and the lemmas about them. `IsFirstSegment` is an
  independent description of what the pattern matches. `FirstSegmentUnique`
  proves that the truncation returns the only prefix of that shape.
- `file_writer.dfy` (module `FileWriter`): the pure decision `Decide` and a class
  `Disk`. `Disk` holds the file system as a `map<string, string>` and the sequence
  of `next` calls. Its method `Write` performs one run of the writer.

How external calls are modelled:

- `path.resolve` is a function-valued parameter `resolve`.
- The outcome of `fs.writeFile` is a boolean parameter `writeSucceeds`. A failed
  write leaves the file system unchanged.
- The `next` callback is recorded as a value. For the pure stage it is the
  returned `Call`. For the writer it is appended to `Disk.calls`, so "called
  exactly once" reads as "exactly one element appended".

Two behaviours of the code worth stating plainly:

- `moduleDirectImport` does not strip a trailing `/`. With `directImport` set,
  `/foo/bar/baz/` comes back unchanged (`DirectImportKeepsTrailingSlash`;
  lib/modules/moduleDirectImport.js:6). Separately, lib/modules/submodules.js:9
  maps `trimTrailingSlash` over the paths it finds.
- `toFile` reports success whatever the write did, because its write callback
  ignores the error argument (lib/modules/file/toFile.js:17-19). `Disk.Write`
  states this: its final call is the same for both values of `writeSucceeds`.

## Model

| member | source | states |
|---|---|---|
| DirectImport.SlashFrom | lib/modules/moduleDirectImport.js:7 | the greedy `[^/]*` run starting at `i` ends at the first `/` at or after `i`, or at the end of the string; no `/` lies before that point |
| DirectImport.MatchFirstSegment | lib/modules/moduleDirectImport.js:7 | the pattern fails to match exactly when the input is empty or starts with a line terminator; otherwise the match satisfies `IsFirstSegment` |
| DirectImport.Truncate | lib/modules/moduleDirectImport.js:7-8 | the result is always a prefix of the input; an empty input or one starting with a line terminator is returned unchanged; otherwise the result is non-empty, has no `/` after index 0, and is followed in the input by `/` or by nothing |
| DirectImport.ModuleDirectImport | lib/modules/moduleDirectImport.js:4-8 | `next` gets a null error and a value on every input; the value is a prefix of the path; with `directImport` set it is exactly the path; otherwise it is the truncation |
| DirectImport.FirstSegmentUnique | lib/modules/moduleDirectImport.js:7-8 | every prefix that has the matched shape equals the truncation, so the truncation is the longest prefix with no `/` after its first character |
| DirectImport.TruncateIdempotent | lib/modules/moduleDirectImport.js:7-8 | truncating twice gives the same result as truncating once |
| DirectImport.TruncateFixedPoints | lib/modules/moduleDirectImport.js:7-8 | for an input whose first character is not a line terminator, truncation leaves it unchanged if and only if it has no `/` after index 0 |
| DirectImport.TruncateRootedPath | lib/modules/moduleDirectImport.js:3-8 | for a path starting with `/`, everything from the second `/` onward is dropped |
| DirectImport.TruncateExamples | lib/modules/moduleDirectImport.js:3 | `/foo/bar` and `/foo/bar/baz` both become `/foo` |
| DirectImport.DirectImportKeepsTrailingSlash | lib/modules/moduleDirectImport.js:6 | with `directImport` set, `/foo/bar/baz/` is returned with its trailing `/` |
| DirectImport.OnlyDirectImportRead | lib/modules/moduleDirectImport.js:5-6 | configurations that agree on `directImport` give the same call |
| FileWriter.Decide | lib/modules/file/toFile.js:7-15 | the writer refuses exactly when the module path or the contents is falsy; a falsy module path gives the module-path error; a present module path with falsy contents gives the contents error; otherwise it writes the unchanged, non-empty contents to `resolve(modulePath, outputFilename)` |
| FileWriter.ModulePathCheckedFirst | lib/modules/file/toFile.js:11-12 | when the module path is absent or empty, the module-path error is reported whatever the contents are |
| FileWriter.OnlyOutputFilenameRead | lib/modules/file/toFile.js:7-15 | configurations that agree on `outputFilename` lead to the same decision |
| FileWriter.Disk.Write | lib/modules/file/toFile.js:6-20 | `next` is called exactly once on every path; on either guard failure it gets that error and no file changes; otherwise it gets `(null, 'File sucessfully written.')` whatever the write outcome; a successful write sets only the resolved target to the contents; every other entry is unchanged |

## Left out

- `lib/modules/submodules.js` is not part of this model. It maps `trimTrailingSlash` over the result of the glob helper `getFileList`; neither of those is part of this model.
- Configuration resolution, deprecation remapping, default options, index rendering, CLI parsing and multi-root discovery are separate stages of indexr that this model does not cover.
- The logger call `info` in the writer and the currying by `lodash/curry` are left out. Neither affects the outcome.
- The writer's return value is left out: `next`'s return value on a guard failure, `undefined` after starting the write. Callers only use the callback.
- Asynchrony is left out. The writer is modelled as "write, then call `next`".
- Real path semantics are left out, because `path.resolve` is an opaque parameter.
- I/O error details and partially written files are left out. A failed write is modelled as leaving the file system unchanged.
- Non-string values of `modulePath`, `value` and `directImport` are left out. Their JavaScript truthiness is folded into `Option<string>` (absent or `""` is falsy) and `bool`.
- Inputs on which the JavaScript throws before `next` is called are left out, so "on every input" and "on every path" in the rows for `DirectImport.ModuleDirectImport` and `FileWriter.Disk.Write` hold only for well-typed arguments:
  - a `config` that is null or undefined (lib/modules/moduleDirectImport.js:5, lib/modules/file/toFile.js:7);
  - a non-string `filePath`, on which `filePath.match` throws a TypeError (lib/modules/moduleDirectImport.js:7);
  - a null or undefined payload object, on which the destructuring throws (lib/modules/file/toFile.js:8);
  - a non-string `outputFilename`, on which `path.resolve` throws (lib/modules/file/toFile.js:15).
  The model's types (`string`, `Config`, `Payload`) rule these out.
- UTF-16 code units are left out: strings are sequences of Unicode scalar values. This does not change the truncation, since the low half of a surrogate pair is never `/`.
