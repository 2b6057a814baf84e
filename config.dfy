/**
 * `src/config.rs`: where the configuration file is looked for. A path given
 * on the command line wins outright; otherwise `config.json` in the user's
 * configuration directory, then `config.json` in the working directory. The
 * platform's configuration directory, the working directory and whether a
 * path exists (`Path::exists`) are parameters.
 */
module Config {
  import opened Wrappers

  /** A path as its components; `join` appends one. */
  type Path = seq<string>

  const FileName: string := "config.json"

  /** Both failures reach the caller as `Error::Io`. */
  datatype IoError =
    | CurrentDir(reason: string)  // `std::env::current_dir` failed
    | NotFound                    // neither candidate file exists

  /** The candidate under the configuration directory, when there is one and the file exists. */
  predicate FoundInConfigDir(configDir: Option<Path>, pathExists: Path -> bool)
  {
    configDir.Some? && pathExists(configDir.value + [FileName])
  }

  /**
   * `get_config_path`: an explicit path unchecked; otherwise the first
   * existing candidate, the configuration directory's before the working
   * directory's; the working directory is asked for only when the first
   * candidate is missing, and its failure is passed on; `NotFound` only when
   * both are missing. A path found this way names `config.json` and exists.
   */
  function GetConfigPath(explicit: Option<Path>, configDir: Option<Path>, currentDir: Result<Path, string>,
                         pathExists: Path -> bool): (r: Result<Path, IoError>)
    ensures explicit.Some? ==> r == Ok(explicit.value)
    ensures explicit.None? && FoundInConfigDir(configDir, pathExists) ==> r == Ok(configDir.value + [FileName])
    ensures explicit.None? && !FoundInConfigDir(configDir, pathExists) ==>
      if currentDir.Err? then r == Err(CurrentDir(currentDir.error))
      else if pathExists(currentDir.value + [FileName]) then r == Ok(currentDir.value + [FileName])
      else r == Err(NotFound)
    ensures explicit.None? && r.Ok? ==> |r.value| > 0 && r.value[|r.value| - 1] == FileName && pathExists(r.value)
  {
    if explicit.Some? then Ok(explicit.value)
    else if FoundInConfigDir(configDir, pathExists) then Ok(configDir.value + [FileName])
    else if currentDir.Err? then Err(CurrentDir(currentDir.error))
    else
      var fallback := currentDir.value + [FileName];
      if pathExists(fallback) then Ok(fallback) else Err(NotFound)
  }

  /**
   * With more files on disk the lookup does no worse: whatever it found
   * before it still finds something, and it finds the same file when that
   * was the configuration directory's.
   */
  lemma MoreFilesStillFound(explicit: Option<Path>, configDir: Option<Path>, currentDir: Result<Path, string>,
                            fewer: Path -> bool, more: Path -> bool)
    requires forall p :: fewer(p) ==> more(p)
    ensures GetConfigPath(explicit, configDir, currentDir, fewer).Ok? ==> GetConfigPath(explicit, configDir, currentDir, more).Ok?
    ensures FoundInConfigDir(configDir, fewer) ==>
      GetConfigPath(explicit, configDir, currentDir, more) == GetConfigPath(explicit, configDir, currentDir, fewer)
  {
  }

  /** `NotFound` means neither candidate exists and the working directory was known. */
  lemma NotFoundMeansBothMissing(explicit: Option<Path>, configDir: Option<Path>, currentDir: Result<Path, string>,
                                 pathExists: Path -> bool)
    requires GetConfigPath(explicit, configDir, currentDir, pathExists) == Err(NotFound)
    ensures explicit.None? && !FoundInConfigDir(configDir, pathExists)
    ensures currentDir.Ok? && !pathExists(currentDir.value + [FileName])
  {
  }
}
