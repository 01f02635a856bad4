/** The resolved configuration the watcher and the builder consume
    (config/config.go).  Reading and parsing the TOML file is not part of
    this model; a configuration is given as a value. */
module Config {

  datatype Config = Config(
    name: string,                 // app_name: the output binary's file name
    path: string,                 // app_path: the project directory
    address: string,              // app_address: "" until one is negotiated
    buildArgs: seq<string>,       // build_args: extra compiler arguments
    listenPort: int,              // listen_port: preferred debugger port
    excludeDirs: seq<string>,
    excludeFiles: seq<string>,
    excludeExts: seq<string>,
    excludePrefix: seq<string>,
    includeDirs: seq<string>,
    includeFiles: seq<string>)

  /** Where the compiled binary is written: path + "/" + name. */
  function BinaryPath(c: Config): string {
    c.path + "/" + c.name
  }

  /** After loading, the binary's own path is appended to the excluded
      files, so that writing the binary does not trigger a rebuild. */
  function WithBinaryExcluded(c: Config): (r: Config)
    ensures r.excludeFiles == c.excludeFiles + [BinaryPath(c)]
    ensures r == c.(excludeFiles := r.excludeFiles)
  {
    c.(excludeFiles := c.excludeFiles + [BinaryPath(c)])
  }
}
