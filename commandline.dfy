/** The command line's argument loop: which settings file and which profile the program
    loads, or whether it prints its usage or an error and stops. */
module CommandLine {

  const DefaultConfigPath: string := "config.json"
  const DefaultProfilePath: string := "profile.json"

  /** The error printed when --config or -c ends the arguments. */
  const ConfigMissing: string := "Error: --config requires a path argument."
  /** The error the --profile flag evidently means to print when it ends the arguments. */
  const ProfileMissing: string := "Error: --profile requires a path argument."

  predicate IsHelp(a: string)
  {
    a == "--help" || a == "-h"
  }

  predicate IsConfig(a: string)
  {
    a == "--config" || a == "-c"
  }

  predicate IsProfile(a: string)
  {
    a == "--profile" || a == "-p"
  }

  /** An argument the loop acts on; every other argument is skipped. */
  predicate IsOption(a: string)
  {
    IsHelp(a) || IsConfig(a) || IsProfile(a)
  }

  /** How the loop ends: with the two paths to load, after printing the usage, or after
      printing an error. */
  datatype Parsed =
    | Run(configPath: string, profilePath: string)
    | ShowUsage
    | MissingValue(message: string)

  /** The loop from argument i on, with the paths chosen so far. A flag takes the argument after
      it verbatim as its path, whatever it is, and the loop resumes after that argument.
      `profileMissing` is the error a trailing --profile prints. */
  function ParseFrom(args: seq<string>, i: nat, configPath: string, profilePath: string, profileMissing: string): (r: Parsed)
    requires i <= |args|
    decreases |args| - i
  {
    if i == |args| then Run(configPath, profilePath)
    else if IsHelp(args[i]) then ShowUsage
    else if IsConfig(args[i]) then
      (if i + 1 < |args| then ParseFrom(args, i + 2, args[i + 1], profilePath, profileMissing) else MissingValue(ConfigMissing))
    else if IsProfile(args[i]) then
      (if i + 1 < |args| then ParseFrom(args, i + 2, configPath, args[i + 1], profileMissing) else MissingValue(profileMissing))
    else ParseFrom(args, i + 1, configPath, profilePath, profileMissing)
  }

  /** The loop as written: a trailing --profile prints the --config error. */
  function ParseAsWritten(args: seq<string>): (r: Parsed)
    ensures r.MissingValue? ==> r.message == ConfigMissing
  {
    MissingMessageFixed(args, 0, DefaultConfigPath, DefaultProfilePath);
    ParseFrom(args, 0, DefaultConfigPath, DefaultProfilePath, ConfigMissing)
  }

  /** The loop as its messages mean it: each flag names itself in its error. */
  function Parse(args: seq<string>): (r: Parsed)
    ensures r.MissingValue? ==>
      |args| > 0 &&
      (r.message == ConfigMissing <==> IsConfig(args[|args| - 1])) &&
      (r.message == ProfileMissing <==> IsProfile(args[|args| - 1]))
  {
    MissingOnlyAtEnd(args, 0, DefaultConfigPath, DefaultProfilePath, ProfileMissing);
    ParseFrom(args, 0, DefaultConfigPath, DefaultProfilePath, ProfileMissing)
  }

  /** With the --config error for both flags, every error printed is the --config error. */
  lemma {:induction false} MissingMessageFixed(args: seq<string>, i: nat, c: string, p: string)
    requires i <= |args|
    ensures ParseFrom(args, i, c, p, ConfigMissing).MissingValue? ==> ParseFrom(args, i, c, p, ConfigMissing).message == ConfigMissing
    decreases |args| - i
  {
    if i < |args| && !IsHelp(args[i]) {
      if IsConfig(args[i]) || IsProfile(args[i]) {
        if i + 1 < |args| {
          MissingMessageFixed(args, i + 2, if IsConfig(args[i]) then args[i + 1] else c, if IsConfig(args[i]) then p else args[i + 1]);
        }
      } else {
        MissingMessageFixed(args, i + 1, c, p);
      }
    }
  }

  /** An error is printed only when the arguments end with a flag that takes a path, and the
      error is that flag's. */
  lemma {:induction false} MissingOnlyAtEnd(args: seq<string>, i: nat, c: string, p: string, pm: string)
    requires i <= |args| && pm != ConfigMissing
    ensures var r := ParseFrom(args, i, c, p, pm);
      r.MissingValue? ==>
        i < |args| &&
        (r.message == ConfigMissing <==> IsConfig(args[|args| - 1])) &&
        (r.message == pm <==> IsProfile(args[|args| - 1]))
    decreases |args| - i
  {
    if i < |args| && !IsHelp(args[i]) {
      if IsConfig(args[i]) {
        if i + 1 < |args| {
          MissingOnlyAtEnd(args, i + 2, args[i + 1], p, pm);
        }
      } else if IsProfile(args[i]) {
        if i + 1 < |args| {
          MissingOnlyAtEnd(args, i + 2, c, args[i + 1], pm);
        }
      } else {
        MissingOnlyAtEnd(args, i + 1, c, p, pm);
      }
    }
  }

  /** The two parses differ only in the message of a trailing --profile. */
  lemma {:induction false} ParsesAgreeButMessage(args: seq<string>, i: nat, c: string, p: string)
    requires i <= |args|
    ensures var w := ParseFrom(args, i, c, p, ConfigMissing);
      var r := ParseFrom(args, i, c, p, ProfileMissing);
      w.MissingValue? <==> r.MissingValue?
    ensures var w := ParseFrom(args, i, c, p, ConfigMissing);
      !w.MissingValue? ==> w == ParseFrom(args, i, c, p, ProfileMissing)
    decreases |args| - i
  {
    if i < |args| && !IsHelp(args[i]) {
      if IsConfig(args[i]) {
        if i + 1 < |args| {
          ParsesAgreeButMessage(args, i + 2, args[i + 1], p);
        }
      } else if IsProfile(args[i]) {
        if i + 1 < |args| {
          ParsesAgreeButMessage(args, i + 2, c, args[i + 1]);
        }
      } else {
        ParsesAgreeButMessage(args, i + 1, c, p);
      }
    }
  }

  /** As written, a trailing --profile reports a missing --config path; as intended it names
      itself, and nothing else changes. */
  lemma ProfileErrorNamesConfig(args: seq<string>)
    ensures ParseAsWritten(["--profile"]) == MissingValue(ConfigMissing)
    ensures Parse(["--profile"]) == MissingValue(ProfileMissing)
    ensures !ParseAsWritten(args).MissingValue? ==> ParseAsWritten(args) == Parse(args)
    ensures ParseAsWritten(args).MissingValue? <==> Parse(args).MissingValue?
  {
    ParsesAgreeButMessage(args, 0, DefaultConfigPath, DefaultProfilePath);
  }

  /** Arguments the loop does not act on are skipped: without any flag the defaults are loaded. */
  lemma {:induction false} PlainArgumentsIgnored(args: seq<string>, i: nat, c: string, p: string, pm: string)
    requires i <= |args|
    requires forall k :: i <= k < |args| ==> !IsOption(args[k])
    ensures ParseFrom(args, i, c, p, pm) == Run(c, p)
    decreases |args| - i
  {
    if i < |args| {
      PlainArgumentsIgnored(args, i + 1, c, p, pm);
    }
  }

  /** A path that is loaded is the default or the argument right after one of its flags. */
  lemma {:induction false} PathsComeFromArguments(args: seq<string>, i: nat, c: string, p: string, pm: string)
    requires i <= |args|
    ensures var r := ParseFrom(args, i, c, p, pm);
      r.Run? ==>
        (r.configPath == c || exists k :: i < k < |args| && IsConfig(args[k - 1]) && args[k] == r.configPath) &&
        (r.profilePath == p || exists k :: i < k < |args| && IsProfile(args[k - 1]) && args[k] == r.profilePath)
    decreases |args| - i
  {
    if i < |args| && !IsHelp(args[i]) {
      if IsConfig(args[i]) {
        if i + 1 < |args| {
          PathsComeFromArguments(args, i + 2, args[i + 1], p, pm);
        }
      } else if IsProfile(args[i]) {
        if i + 1 < |args| {
          PathsComeFromArguments(args, i + 2, c, args[i + 1], pm);
        }
      } else {
        PathsComeFromArguments(args, i + 1, c, p, pm);
      }
    }
  }

  /** The usage is printed only when a help flag is among the arguments the loop reaches. */
  lemma {:induction false} UsageNeedsHelp(args: seq<string>, i: nat, c: string, p: string, pm: string)
    requires i <= |args|
    ensures ParseFrom(args, i, c, p, pm) == ShowUsage ==> exists k :: i <= k < |args| && IsHelp(args[k])
    decreases |args| - i
  {
    if i < |args| && !IsHelp(args[i]) {
      if IsConfig(args[i]) {
        if i + 1 < |args| {
          UsageNeedsHelp(args, i + 2, args[i + 1], p, pm);
        }
      } else if IsProfile(args[i]) {
        if i + 1 < |args| {
          UsageNeedsHelp(args, i + 2, c, args[i + 1], pm);
        }
      } else {
        UsageNeedsHelp(args, i + 1, c, p, pm);
      }
    }
  }

  /** Arguments that parse to paths are taken whole: what follows them starts afresh from the
      paths they chose. */
  lemma {:induction false} ParseAppend(a: seq<string>, b: seq<string>, i: nat, c: string, p: string, pm: string)
    requires i <= |a|
    ensures var r := ParseFrom(a, i, c, p, pm);
      r.Run? ==> ParseFrom(a + b, i, c, p, pm) == ParseFrom(a + b, |a|, r.configPath, r.profilePath, pm)
    decreases |a| - i
  {
    if i < |a| && !IsHelp(a[i]) {
      assert (a + b)[i] == a[i];
      if IsConfig(a[i]) {
        if i + 1 < |a| {
          assert (a + b)[i + 1] == a[i + 1];
          ParseAppend(a, b, i + 2, a[i + 1], p, pm);
        }
      } else if IsProfile(a[i]) {
        if i + 1 < |a| {
          assert (a + b)[i + 1] == a[i + 1];
          ParseAppend(a, b, i + 2, c, a[i + 1], pm);
        }
      } else {
        ParseAppend(a, b, i + 1, c, p, pm);
      }
    }
  }

  /** A flag given again overrides the earlier path: the last occurrence wins. */
  lemma LastOccurrenceWins(args: seq<string>, flag: string, path: string)
    requires Parse(args).Run?
    ensures IsConfig(flag) ==> Parse(args + [flag, path]) == Run(path, Parse(args).profilePath)
    ensures IsProfile(flag) ==> Parse(args + [flag, path]) == Run(Parse(args).configPath, path)
  {
    ParseAppend(args, [flag, path], 0, DefaultConfigPath, DefaultProfilePath, ProfileMissing);
    var all := args + [flag, path];
    assert all[|args|] == flag && all[|args| + 1] == path;
  }

  /** A few command lines: both flags, help before a flag without its path, a flag's path that
      looks like a flag, and no arguments. */
  lemma Examples()
    ensures Parse(["--config", "a.json", "-p", "b.json"]) == Run("a.json", "b.json")
    ensures Parse(["-h", "--config"]) == ShowUsage
    ensures Parse(["-c", "-h"]) == Run("-h", DefaultProfilePath)
    ensures Parse(["verbose"]) == Run(DefaultConfigPath, DefaultProfilePath)
    ensures Parse([]) == Run(DefaultConfigPath, DefaultProfilePath)
  {
    var a := ["--config", "a.json", "-p", "b.json"];
    assert ParseFrom(a, 2, "a.json", DefaultProfilePath, ProfileMissing) == Run("a.json", "b.json");
  }

  /** Program.Main's argument loop, lines as written: the result says which files to load, or
      whether usage or an error was printed. */
  method ParseArguments(args: seq<string>) returns (r: Parsed)
    ensures r == ParseAsWritten(args)
  {
    var configPath := DefaultConfigPath;
    var profilePath := DefaultProfilePath;
    var i := 0;
    var l := |args|;
    while i < l
      invariant 0 <= i <= l + 1 && l == |args|
      invariant i <= l ==> ParseFrom(args, i, configPath, profilePath, ConfigMissing) == ParseAsWritten(args)
      invariant i == l + 1 ==> Run(configPath, profilePath) == ParseAsWritten(args)
    {
      if IsHelp(args[i]) {
        return ShowUsage;
      } else if IsConfig(args[i]) {
        if i + 1 < l {
          configPath := args[i + 1];
          i := i + 1;
        } else {
          return MissingValue(ConfigMissing);
        }
      } else if IsProfile(args[i]) {
        if i + 1 < l {
          profilePath := args[i + 1];
          i := i + 1;
        } else {
          return MissingValue(ConfigMissing);
        }
      }
      i := i + 1;
    }
    r := Run(configPath, profilePath);
  }
}
