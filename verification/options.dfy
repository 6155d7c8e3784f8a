/** The resolved configuration record that every stage receives first. */
module Options {
  import opened Callback

  /** Every option of the resolved configuration. Only `outputFilename` and
      `directImport` are read by the stages modelled here; the others exist so that
      it can be stated that they do not matter. */
  datatype Config = Config(
    outputFilename: string,
    submodules: seq<string>,
    modules: Option<seq<string>>,
    directImport: bool,
    es5: bool,
    exts: seq<string>,
    watch: Option<string>)
}
