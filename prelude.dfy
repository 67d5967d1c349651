/** The shapes of the values the GUI receives from the rest of the crate:
    the error type, a scan result, and the configuration it edits. Only the
    parts the GUI reads or writes are kept; the modules that produce them
    (configuration loading, the manifest, the scanners) are not part of this
    model. */
module Prelude {

  /** The crate's error type. The GUI builds exactly one variant itself;
      every other variant reaches it from a collaborator and is only shown. */
  datatype Error =
    | RestorationSourceInvalid(path: string)
    | Reported(detail: string)

  /** What a per-game scan found: file paths and registry keys. */
  datatype ScanInfo = ScanInfo(foundFiles: set<string>, foundRegistryKeys: set<string>)
  {
    /** A scan "found something" when either set is non-empty. */
    predicate HasFindings() {
      foundFiles != {} || foundRegistryKeys != {}
    }
  }

  datatype Store = Steam | Other

  /** One search root of the configuration. */
  datatype RootsConfig = RootsConfig(path: string, store: Store)

  /** The part of the configuration the GUI edits: the backup target, the
      restore source and the ordered list of roots. */
  datatype Config = Config(backupPath: string, restorePath: string, roots: seq<RootsConfig>)
}
