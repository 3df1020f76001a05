/**
 The command line of the server (serve.go:114-121): the directory to serve
 and the port to listen on, from the program's argument list, whose first
 element is the program's own name.
 */
module Cli {

  datatype Settings = Settings(dir: string, port: string)

  const DefaultDir := "."
  const DefaultPort := "3000"

  /**
   The directory is the first positional argument and the port the second;
   each keeps its default when its argument is missing, and arguments past
   the second are ignored. The defaults are the directory and port that
   server.go fixes (server.go:78 and server.go:89).
   */
  function Configure(args: seq<string>): (s: Settings)
    ensures |args| < 2 ==> s == Settings(DefaultDir, DefaultPort)
    ensures |args| == 2 ==> s == Settings(args[1], DefaultPort)
    ensures |args| >= 3 ==> s == Settings(args[1], args[2])
  {
    var dir := if |args| >= 2 then args[1] else DefaultDir;
    var port := if |args| >= 3 then args[2] else DefaultPort;
    Settings(dir, port)
  }

  /** Arguments after the port change nothing. */
  lemma TrailingArgumentsIgnored(args: seq<string>, extra: seq<string>)
    requires |args| >= 3
    ensures Configure(args + extra) == Configure(args)
  {
    assert (args + extra)[1] == args[1] && (args + extra)[2] == args[2];
  }
}
