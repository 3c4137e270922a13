/**
 From text to behaviour (tascript.go:18-52): what compiling a script comes to, and the end-to-end theorem that a
 script accepted by lexer, parser and resolver is safe in every conversation with its host.
 */
module Pipeline {
  import opened Wrappers
  import opened Tokens
  import opened Values
  import opened Registries
  import opened LiveRegistries
  import opened Rules
  import opened WellFormed
  import A = Ast
  import opened Resolved
  import opened Typing
  import E = Elaboration
  import opened AcceptedPrograms
  import S = Semantics
  import opened Lifecycle
  import opened Soundness
  import opened Safety
  import opened Executables
  import opened Resolvers
  import opened Parsing
  import opened ParsedTrees
  import G = ProgramGrammar
  import W = Erasure
  import X = AcceptedExactly
  import opened Parsers
  import opened Lexing
  import opened Lexers

  type ReadFloat = string -> Option<F64>

  /** The tokens of a script, as the parser sees them. */
  function TokensOf(src: string, readFloat: ReadFloat): Source {
    Source(TokensFrom(src, 0, 0), EndFrom(src, 0, 0), readFloat)
  }

  datatype CompileError = Syntax(diag: Diag) | Meaning(code: E.Code)

  /** The resolved program and the registry it runs against, or the first error. */
  function Compilation(src: string, readFloat: ReadFloat, reg: Registry): Result<(Registry, RProgram), CompileError> {
    match ParseProgram(TokensOf(src, readFloat))
    case Failure(diag) => Failure(Syntax(diag))
    case Success(p) =>
      match E.CheckProgram(reg, p)
      case Failure(code) => Failure(Meaning(code))
      case Success(v) => Success(v)
  }

  lemma TokensArePlain(src: string, readFloat: ReadFloat)
    ensures PlainNames(TokensOf(src, readFloat))
  {
    IdentsAreWords(src, 0, 0);
    forall t | t in TokensOf(src, readFloat).toks && t.typ == IDENT ensures A.Plain(t.lit) {
      IdentHasNoDot(t.lit);
    }
  }

  /** The text compiles, to this code and this registry. */
  predicate CompilesTo(src: string, readFloat: ReadFloat, reg: Registry, reg': Registry, code: RProgram) {
    Compilation(src, readFloat, reg) == Success((reg', code))
  }

  lemma CompiledIsChecked(src: string, readFloat: ReadFloat, reg: Registry, reg': Registry, code: RProgram)
    returns (p: A.Program)
    requires CompilesTo(src, readFloat, reg, reg', code)
    ensures A.CleanProgram(p) && E.CheckProgram(reg, p) == Success((reg', code))
  {
    hide A.CleanProgram, E.CheckProgram, ParseProgram, PlainNames;
    var s := TokensOf(src, readFloat);
    p := ParseProgram(s).value;
    TokensArePlain(src, readFloat);
    ProgramClean(s);
  }

  /**
   What compiling comes to, without parser or checker: a script compiles to some code exactly if its tokens have a
   derivation in the grammar and the code is a resolution of the tree that the derivation means.
   */
  lemma CompilesExactly(src: string, readFloat: ReadFloat, reg: Registry, reg': Registry, code: RProgram)
    requires WfRegistry(reg) && DotlessTypes(reg)
    ensures CompilesTo(src, readFloat, reg, reg', code) <==>
      exists c :: G.ProgramDerivation(TokensOf(src, readFloat), c)
        && X.ProgramResolves(reg, reg', code, G.ProgramMeans(TokensOf(src, readFloat), c))
  {
    hide A.CleanProgram, E.CheckProgram, ParseProgram, PlainNames, WfRegistry, DotlessTypes, TokensFrom, EndFrom;
    hide G.ProgramDerivation, G.ProgramMeans, X.ProgramResolves;
    var s := TokensOf(src, readFloat);
    G.ProgramsAreGrammar(s);
    if ParseProgram(s).Success? {
      TokensArePlain(src, readFloat);
      ProgramClean(s);
      X.ProgramsExactly(reg, ParseProgram(s).value, reg', code);
    }
  }

  /** The code of a script that compiles reads back as the program that was written. */
  lemma CompiledReadsBack(src: string, readFloat: ReadFloat, reg: Registry, reg': Registry, code: RProgram)
    returns (c: G.CProgram)
    requires RegistryInv(reg) && DotlessTypes(reg) && CompilesTo(src, readFloat, reg, reg', code)
    ensures G.ProgramDerivation(TokensOf(src, readFloat), c)
    ensures W.ProgramReadsBack(reg', code, G.ProgramMeans(TokensOf(src, readFloat), c))
  {
    hide A.CleanProgram, E.CheckProgram, ParseProgram, PlainNames, RegistryInv, DotlessTypes, TokensFrom, EndFrom;
    hide G.ProgramDerivation, G.ProgramMeans, W.ProgramReadsBack;
    var s := TokensOf(src, readFloat);
    G.ProgramsAreGrammar(s);
    c :| G.ProgramDerivation(s, c);
    TokensArePlain(src, readFloat);
    ProgramClean(s);
    W.CheckedProgramReadsBack(reg, ParseProgram(s).value);
  }

  /** A script that compiles is a program the type system accepts, from some initial scope of names. */
  lemma CompiledIsTyped(src: string, readFloat: ReadFloat, reg: Registry, host: Host, reg': Registry, code: RProgram)
    returns (start: Ctx)
    requires WfRegistry(reg) && DotlessTypes(reg) && CompilesTo(src, readFloat, reg, reg', code)
      && HostHonours(host, reg')
    ensures WfRegistry(reg') && Extends(reg, reg') && ProgramOk(S.Program(reg', host, code), start)
  {
    hide CompilesTo, A.CleanProgram, E.CheckProgram, WfRegistry, HostHonours, WtProgram, PreludeOk, Extends, Trusted,
      DotlessTypes;
    var p := CompiledIsChecked(src, readFloat, reg, reg', code);
    CheckProgramTyped(reg, p);
    WellFormedIsTrusted(S.Program(reg', host, code));
    start := Opening(reg, E.DeclaredNames(reg, p.decls)).(reg := reg');
  }

  /** Nothing that leaves a conversation is an engine panic or a badly typed delivery. */
  ghost predicate SafeRun(p: S.Program, outcome: (Exec, seq<ApiResult>)) {
    && !outcome.0.inTick
    && (forall a | a in outcome.1 :: a != Crashed(true))
    && (forall m | m in outcome.0.world.trace ::
          HasType(p.reg, m.value, m.sink.t) && S.OutputType(p.code.decls, m.output) == Some(m.sink.t))
  }

  /**
   End to end: any text that compiles, under any host that keeps the types it declared, through any sequence
   of public calls with any calls back from rules and sinks, never reaches a panic of the engine and delivers
   only values of their sinks' types.
   */
  lemma CompiledIsSafe(src: string, readFloat: ReadFloat, reg: Registry, host: Host, reg': Registry, code: RProgram,
      calls: seq<ApiCall>)
    requires WfRegistry(reg) && DotlessTypes(reg) && CompilesTo(src, readFloat, reg, reg', code)
    requires HostHonours(host, reg') && ProperCalls(reg', calls)
    ensures var p := S.Program(reg', host, code); SafeRun(p, Converse(p, Fresh(p), calls))
  {
    hide CompilesTo, WfRegistry, DotlessTypes, HostHonours, ProgramOk, Converse, ProperCalls, Extends;
    var start := CompiledIsTyped(src, readFloat, reg, host, reg', code);
    var p := S.Program(reg', host, code);
    FreshOk(p, start);
    ConverseSafely(p, start, Fresh(p), calls);
  }

  // ---------- The builder ----------

  class Builder {
    const reg: LiveRegistry
    var spent: bool

    constructor (reg: LiveRegistry)
      ensures this.reg == reg && !spent
    {
      this.reg := reg;
      spent := false;
    }

    /**
     Compiles one script, once. The outcome is Compilation's: an executable in its fresh state and a sealed
     registry, or diagnostics that start with its error.
     */
    method Compile(src: string, readFloat: ReadFloat, host: Host)
      returns (exe: Executable?, syntax: seq<Diag>, meaning: seq<E.Code>)
      requires RegistryInv(reg.View()) && DotlessTypes(reg.View())
      modifies this, reg
      ensures spent && |syntax| <= MAX_PARSE_ERRORS
      ensures old(spent) ==> exe == null && syntax == [] && meaning == [] && reg.View() == old(reg.View())
      ensures exe != null ==> fresh(exe) && exe.Valid() && exe.State() == Fresh(exe.prog) && exe.prog.host == host
      ensures !old(spent) ==> exe != null || syntax != [] || meaning != []
      ensures exe != null ==> CompilesTo(src, readFloat, old(reg.View()), exe.prog.reg, exe.prog.code)
      ensures exe != null ==> syntax == [] && meaning == [] && reg.View() == exe.prog.reg.(isSealed := true)
      ensures syntax != [] ==>
        exe == null && Compilation(src, readFloat, old(reg.View())) == Failure(Syntax(syntax[0]))
          && reg.View() == old(reg.View())
      ensures meaning != [] ==>
        exe == null && syntax == [] && Compilation(src, readFloat, old(reg.View())) == Failure(Meaning(meaning[0]))
          && reg.isSealed
    {
      hide ParseProgram, E.CheckProgram, A.CleanProgram, RegistryInv, DotlessTypes, TokensFrom, EndFrom, PlainNames;
      exe, syntax, meaning := null, [], [];
      if spent {
        return;
      }
      spent := true;
      var tokens, end := Tokenize(src);
      var parser := new Parser(Source(tokens, end, readFloat));
      var prog, valid := parser.Parse();
      if |parser.errors| > 0 {
        syntax := parser.errors;
        return;
      }
      TokensArePlain(src, readFloat);
      ProgramClean(parser.src);
      var resolver := new Resolver(reg);
      var code := resolver.Resolve(prog);
      var entries := reg.View();
      reg.Seal();
      if |resolver.errs| > 0 {
        meaning := resolver.errs;
        return;
      }
      exe := new Executable(S.Program(entries, host, code));
    }
  }
}
