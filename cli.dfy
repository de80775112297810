/**
 * The command line of the renderer: `<obj> <extra> [OPTIONS]`, the option scan from the
 * fourth argument on, the BSDF name lookup, and the headless sample loop with its progress
 * cadence.
 *
 * `std::atoi` is a parameter: the model does not parse numbers.
 */
module CommandLine {
  import opened Options

  newtype int32 = x: int | -0x8000_0000 <= x < 0x8000_0000

  const UintRange: int := 0x1_0000_0000

  /** The options struct of main, with its defaults. */
  datatype CmdArgs = CmdArgs(ui: bool, maxDepth: int32, maxSpp: int32, captureName: string,
                             bsdfType: string, bsdfTypeIndex: nat)

  function Defaults(): CmdArgs {
    CmdArgs(true, -1, -1, "capture", "blinn-phong", 2)
  }

  /** The options that take a value. */
  predicate IsFlag(token: string) {
    token in ["--ui", "--max-depth", "--max-spp", "--output", "-o", "--bsdf-type"]
  }

  /** The effect of flag `token` followed by `value`; any other token changes nothing. */
  function Apply(args: CmdArgs, token: string, value: string, atoi: string -> int32): (r: CmdArgs)
    ensures !IsFlag(token) ==> r == args
    ensures token == "-o" || token == "--output" ==> r == args.(captureName := value)
    ensures r.bsdfTypeIndex == args.bsdfTypeIndex
  {
    if token == "--ui" then args.(ui := atoi(value) != 0)
    else if token == "--max-depth" then args.(maxDepth := atoi(value))
    else if token == "--max-spp" then args.(maxSpp := atoi(value))
    else if token == "--output" || token == "-o" then args.(captureName := value)
    else if token == "--bsdf-type" then args.(bsdfType := value)
    else args
  }

  /**
   * The option scan from position i: a flag consumes the next token, anything else is
   * skipped. A flag in the last position would read argv[argc], a null pointer: the scan
   * then has no result.
   */
  function Scan(argv: seq<string>, i: nat, args: CmdArgs, atoi: string -> int32): Option<CmdArgs>
    decreases |argv| - i
  {
    if i >= |argv| then Some(args)
    else if IsFlag(argv[i]) then
      if i + 1 < |argv| then Scan(argv, i + 2, Apply(args, argv[i], argv[i + 1], atoi), atoi) else None
    else Scan(argv, i + 1, args, atoi)
  }

  /** What main does with its arguments: usage (exit -1), a read past argv, or options. */
  datatype Outcome = Usage | MissingValue | Options(args: CmdArgs)

  /** The BSDF names, in index order. */
  const BsdfNames: seq<string> := ["lambert", "phong", "blinn-phong", "microfacet"]

  /** The lookup loop: the index of the name, or 2 (blinn-phong) when it is none of them. */
  method BsdfIndex(name: string) returns (index: nat)
    ensures index < |BsdfNames|
    ensures name in BsdfNames ==> BsdfNames[index] == name
    ensures name !in BsdfNames ==> index == 2
  {
    index := 2;
    for i := 0 to |BsdfNames|
      invariant index < |BsdfNames|
      invariant name in BsdfNames[..i] ==> BsdfNames[index] == name
      invariant name !in BsdfNames[..i] ==> index == 2
    {
      if name == BsdfNames[i] {
        index := i;
      }
    }
  }

  /** main's argument handling up to the file checks. */
  method ParseArgs(argv: seq<string>, atoi: string -> int32) returns (r: Outcome)
    ensures |argv| < 3 <==> r == Usage
    ensures |argv| >= 3 ==> (r == MissingValue <==> Scan(argv, 3, Defaults(), atoi) == None)
    ensures r.Options? ==>
      && Scan(argv, 3, Defaults(), atoi) == Some(r.args.(bsdfTypeIndex := 2))
      && r.args.bsdfTypeIndex < |BsdfNames|
      && (r.args.bsdfType in BsdfNames ==> BsdfNames[r.args.bsdfTypeIndex] == r.args.bsdfType)
      && (r.args.bsdfType !in BsdfNames ==> r.args.bsdfTypeIndex == 2)
  {
    if |argv| < 3 {
      return Usage;
    }
    var args := Defaults();
    var i := 3;
    while i < |argv|
      invariant 3 <= i && args.bsdfTypeIndex == 2
      invariant Scan(argv, i, args, atoi) == Scan(argv, 3, Defaults(), atoi)
      decreases |argv| - i
    {
      if IsFlag(argv[i]) {
        if i + 1 >= |argv| {
          return MissingValue;
        }
        args := Apply(args, argv[i], argv[i + 1], atoi);
        i := i + 1;
      }
      i := i + 1;
    }
    var index := BsdfIndex(args.bsdfType);
    r := Options(args.(bsdfTypeIndex := index));
  }

  /**
   * A successful scan ends exactly at the end of argv, so a flag appended with its value
   * is applied last, over whatever the earlier tokens set.
   */
  lemma {:induction false} AppendedOptionWins(argv: seq<string>, i: nat, args: CmdArgs, atoi: string -> int32,
                                              flag: string, value: string)
    requires i <= |argv| && Scan(argv, i, args, atoi).Some? && IsFlag(flag)
    ensures Scan(argv + [flag, value], i, args, atoi) == Some(Apply(Scan(argv, i, args, atoi).value, flag, value, atoi))
    decreases |argv| - i
  {
    var longer := argv + [flag, value];
    if i == |argv| {
      assert longer[i] == flag && longer[i + 1] == value;
      assert Scan(longer, i + 2, Apply(args, flag, value, atoi), atoi) == Some(Apply(args, flag, value, atoi));
    } else {
      assert longer[i] == argv[i];
      if IsFlag(argv[i]) {
        assert longer[i + 1] == argv[i + 1];
        AppendedOptionWins(argv, i + 2, Apply(args, argv[i], argv[i + 1], atoi), atoi, flag, value);
      } else {
        AppendedOptionWins(argv, i + 1, args, atoi, flag, value);
      }
    }
  }

  /** After a successful scan, a flag appended without its value makes the scan fail. */
  lemma {:induction false} TrailingFlagFails(argv: seq<string>, i: nat, args: CmdArgs, atoi: string -> int32, flag: string)
    requires i <= |argv| && Scan(argv, i, args, atoi).Some? && IsFlag(flag)
    ensures Scan(argv + [flag], i, args, atoi) == None
    decreases |argv| - i
  {
    var longer := argv + [flag];
    if i == |argv| {
      assert longer[i] == flag;
    } else {
      assert longer[i] == argv[i];
      if IsFlag(argv[i]) {
        assert longer[i + 1] == argv[i + 1];
        TrailingFlagFails(argv, i + 2, Apply(args, argv[i], argv[i + 1], atoi), atoi, flag);
      } else {
        TrailingFlagFails(argv, i + 1, args, atoi, flag);
      }
    }
  }

  /**
   * `-o` and `--output` are the same option: renaming an `-o` that does not follow a
   * flag (so that it is read as an option, not as a value) leaves the scan unchanged.
   */
  lemma {:induction false} OutputAlias(argv: seq<string>, p: nat, i: nat, args: CmdArgs, atoi: string -> int32)
    requires p < |argv| && argv[p] == "-o" && (p == 0 || !IsFlag(argv[p - 1]))
    ensures Scan(argv, i, args, atoi) == Scan(argv[p := "--output"], i, args, atoi)
    decreases |argv| - i
  {
    var renamed := argv[p := "--output"];
    if i < |argv| {
      assert IsFlag(argv[i]) == IsFlag(renamed[i]);
      if IsFlag(argv[i]) {
        if i + 1 < |argv| {
          assert Apply(args, argv[i], argv[i + 1], atoi) == Apply(args, renamed[i], renamed[i + 1], atoi);
          OutputAlias(argv, p, i + 2, Apply(args, argv[i], argv[i + 1], atoi), atoi);
        }
      } else {
        OutputAlias(argv, p, i + 1, args, atoi);
      }
    }
  }

  /**
   * The headless sample count: max_spp converted to uint32 (a negative value wraps
   * around), capped at 65536.
   */
  function HeadlessSpp(maxSpp: int32): (r: nat)
    ensures r <= 65536
    ensures maxSpp < 0 ==> r == 65536
    ensures 0 <= maxSpp as int <= 65536 ==> r == maxSpp as int
    ensures maxSpp as int > 65536 ==> r == 65536
  {
    var asUnsigned := if maxSpp < 0 then maxSpp as int + UintRange else maxSpp as int;
    if asUnsigned < 65536 then asUnsigned else 65536
  }

  /**
   * The headless loop: one scene update per sample, and a progress line after every
   * sixteenth sample, carrying the sample count.
   */
  method HeadlessRun(samples: nat) returns (updates: nat, progress: seq<nat>)
    ensures updates == samples
    ensures |progress| == samples / 16
    ensures forall k | 0 <= k < |progress| :: progress[k] == 16 * (k + 1)
  {
    updates := 0;
    progress := [];
    for i := 0 to samples
      invariant updates == i
      invariant |progress| == i / 16
      invariant forall k | 0 <= k < |progress| :: progress[k] == 16 * (k + 1)
    {
      updates := updates + 1;
      if (i + 1) % 16 == 0 {
        progress := progress + [i + 1];
      }
    }
  }
}
