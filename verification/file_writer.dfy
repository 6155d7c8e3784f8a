/** The index-file writer (lib/modules/file/toFile.js): two guards checked in a
    fixed order, then one write of the rendered contents to
    `path.resolve(modulePath, outputFilename)`, then the success callback. */
module FileWriter {
  import opened Callback
  import opened Options

  const NoModulePath := "No module path sent to fileWriter."
  const NoContents := "No contents sent to fileWriter."
  /** Spelled as the writer spells it. */
  const Written := "File sucessfully written."

  /** The writer's second argument, `{ modulePath, value }`; either field may be
      absent. */
  datatype Payload = Payload(modulePath: Option<string>, value: Option<string>)

  /** JavaScript truthiness of an optional string: absent and `""` are falsy. */
  predicate Truthy(v: Option<string>) {
    v.Some? && v.value != ""
  }

  /** What the writer decides to do before touching the file system. */
  datatype Step = Fail(message: string) | WriteTo(filename: string, contents: string)

  /** The guards and the target-filename computation. `resolve` stands for
      `path.resolve`. */
  function Decide(config: Config, payload: Payload, resolve: (string, string) -> string): (s: Step)
    ensures s.Fail? <==> !Truthy(payload.modulePath) || !Truthy(payload.value)
    ensures !Truthy(payload.modulePath) ==> s == Fail(NoModulePath)
    ensures Truthy(payload.modulePath) && !Truthy(payload.value) ==> s == Fail(NoContents)
    ensures s.WriteTo? ==> s.contents == payload.value.value && s.contents != ""
    ensures s.WriteTo? ==> s.filename == resolve(payload.modulePath.value, config.outputFilename)
  {
    if !Truthy(payload.modulePath) then Fail(NoModulePath)
    else if !Truthy(payload.value) then Fail(NoContents)
    else WriteTo(resolve(payload.modulePath.value, config.outputFilename), payload.value.value)
  }

  /** The module-path guard comes first: when both fields are missing, the
      module-path error is the one reported. */
  lemma ModulePathCheckedFirst(config: Config, resolve: (string, string) -> string, contents: Option<string>)
    ensures Decide(config, Payload(None, contents), resolve) == Fail(NoModulePath)
    ensures Decide(config, Payload(Some(""), contents), resolve) == Fail(NoModulePath)
  {
  }

  /** `outputFilename` is the only configuration field the writer reads. */
  lemma OnlyOutputFilenameRead(c1: Config, c2: Config, payload: Payload, resolve: (string, string) -> string)
    requires c1.outputFilename == c2.outputFilename
    ensures Decide(c1, payload, resolve) == Decide(c2, payload, resolve)
  {
  }

  /** The file system the writer writes into, and the record of every call of
      the writer's `next` continuation. */
  class Disk {
    /** File contents by absolute path. */
    var files: map<string, string>
    /** Every call of `next`, oldest first. */
    var calls: seq<Call>

    constructor (initial: map<string, string>)
      ensures files == initial && calls == []
    {
      files := initial;
      calls := [];
    }

    /** One run of the writer. `resolve` stands for `path.resolve` and
        `writeSucceeds` for the outcome of `fs.writeFile`, which the writer's
        write callback ignores. `next` is called exactly once on every path. */
    method Write(config: Config, payload: Payload, resolve: (string, string) -> string, writeSucceeds: bool)
      modifies this
      ensures |calls| == |old(calls)| + 1 && calls[..|old(calls)|] == old(calls)
      ensures !Truthy(payload.modulePath) ==>
                calls[|calls| - 1] == Call(Some(NoModulePath), None) && files == old(files)
      ensures Truthy(payload.modulePath) && !Truthy(payload.value) ==>
                calls[|calls| - 1] == Call(Some(NoContents), None) && files == old(files)
      ensures Truthy(payload.modulePath) && Truthy(payload.value) ==>
                calls[|calls| - 1] == Call(None, Some(Written))
      ensures match Decide(config, payload, resolve)
              case Fail(_) => files == old(files)
              case WriteTo(filename, contents) =>
                files == (if writeSucceeds then old(files)[filename := contents] else old(files))
      ensures var step := Decide(config, payload, resolve);
              forall p :: (step.Fail? || p != step.filename) ==>
                (p in files <==> p in old(files)) && (p in files ==> files[p] == old(files)[p])
    {
      var modulePath, contents := payload.modulePath, payload.value;
      if !Truthy(modulePath) {
        calls := calls + [Call(Some(NoModulePath), None)];
        return;
      }
      if !Truthy(contents) {
        calls := calls + [Call(Some(NoContents), None)];
        return;
      }
      var filename := resolve(modulePath.value, config.outputFilename);
      if writeSucceeds {
        files := files[filename := contents.value];
      }
      calls := calls + [Call(None, Some(Written))];
    }
  }
}
