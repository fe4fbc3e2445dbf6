/**
 * Ev3::Device, the base of every driven device: a sysfs directory whose
 * attribute files are read (stripped of surrounding whitespace) and written,
 * with `address`, `commands` and `driver_name` read once and remembered.
 *
 * Ruby's `@x ||= expr` remembers any value except nil (0 and [] are kept).
 */
module Devices {
  import opened Wrappers
  import opened Text
  import opened Sysfs

  /**
   * read_attribute(name, opts): nil when the file does not exist, its contents
   * stripped when no options are given, its raw contents otherwise.
   */
  function ReadAttribute(files: map<Path, string>, dir: string, name: string, raw: bool): (r: Option<string>)
    ensures r.None? <==> Path(dir, name) !in files
    ensures r.Some? && raw ==> r.value == files[Path(dir, name)]
    ensures r.Some? && !raw ==> r.value == Strip(files[Path(dir, name)])
  {
    match Lookup(files, Path(dir, name))
    case None => None
    case Some(text) => Some(if raw then text else Strip(text))
  }

  /** `attr.to_i`, where nil.to_i is 0. */
  function IntOf(attr: Option<string>): int {
    if attr.None? then 0 else ToI(attr.value)
  }

  /** `attr.split(' ')` (the `map(&:to_sym)` keeps the names); nil has no `split`. */
  function WordsOf(attr: Option<string>): (r: Result<seq<string>>)
    ensures r.Failure? <==> attr.None?
    ensures r.Failure? ==> r.error == NoMethodError
  {
    if attr.None? then Failure(NoMethodError) else Success(Words(attr.value))
  }

  /** `attr.to_sym` (a Symbol is modelled by its name); nil has no `to_sym`. */
  function SymbolOf(attr: Option<string>): (r: Result<string>)
    ensures r.Failure? <==> attr.None?
    ensures r.Failure? ==> r.error == NoMethodError
  {
    if attr.None? then Failure(NoMethodError) else Success(attr.value)
  }

  /** The list a remembered `@x ||= read(...).split(' ')` stands for: the remembered list, or a fresh read. */
  function CachedWords(files: map<Path, string>, dir: string, name: string, cache: Option<seq<string>>): Result<seq<string>> {
    if cache.Some? then Success(cache.value) else WordsOf(ReadAttribute(files, dir, name, false))
  }

  /** The number a remembered `@x ||= read(...).to_i` stands for (never nil, so remembered after the first read). */
  function CachedInt(files: map<Path, string>, dir: string, name: string, cache: Option<int>): int {
    if cache.Some? then cache.value else IntOf(ReadAttribute(files, dir, name, false))
  }

  /**
   * The validation `command=` and every "must be one of the list" setter share:
   * a missing list raises from `split`, a value outside the list is an ArgumentError.
   */
  function MemberCheck(list: Result<seq<string>>, value: string): (r: Outcome)
    ensures list.Failure? ==> r == Fail(list.error)
    ensures list.Success? ==> (r.Pass? <==> value in list.value)
    ensures list.Success? && r.Fail? ==> r.error == ArgumentError
  {
    match list
    case Failure(e) => Fail(e)
    case Success(names) => if value in names then Pass else Fail(ArgumentError)
  }

  /** A list attribute written as single-space-separated names reads back as exactly those names. */
  lemma CachedWordsOfJoin(files: map<Path, string>, dir: string, name: string, names: seq<string>)
    requires forall i :: 0 <= i < |names| ==> IsWord(names[i])
    requires Lookup(files, Path(dir, name)) == Some(JoinSpaced(names))
    ensures CachedWords(files, dir, name, None) == Success(names)
  {
    StripOfJoinSpaced(names);
    WordsOfJoinSpaced(names);
  }

  /** Whatever the remembered value, the list depends only on read-only files once the name is read-only. */
  lemma CachedWordsSameReadOnly(f: map<Path, string>, g: map<Path, string>, dir: string, name: string, cache: Option<seq<string>>)
    requires SameReadOnly(f, g) && ReadOnlyName(name)
    ensures CachedWords(f, dir, name, cache) == CachedWords(g, dir, name, cache)
  {
    assert Lookup(f, Path(dir, name)) == Lookup(g, Path(dir, name));
  }

  lemma CachedIntSameReadOnly(f: map<Path, string>, g: map<Path, string>, dir: string, name: string, cache: Option<int>)
    requires SameReadOnly(f, g) && ReadOnlyName(name)
    ensures CachedInt(f, dir, name, cache) == CachedInt(g, dir, name, cache)
  {
    assert Lookup(f, Path(dir, name)) == Lookup(g, Path(dir, name));
  }

  /** A number written with Integer#to_s reads back through `read_attribute(...).to_i` as the same number. */
  lemma IntReadsBack(files: map<Path, string>, dir: string, name: string, n: int)
    ensures IntOf(ReadAttribute(files[Path(dir, name) := IntToString(n)], dir, name, false)) == n
  {
    StripOfIntToString(n);
    ToIOfIntToString(n);
  }

  class Device {
    const fs: FileSystem
    /** The absolute path of the device's sysfs directory. */
    const node: string
    var addressCache: Option<string>
    var commandsCache: Option<seq<string>>
    var driverNameCache: Option<string>

    constructor (fs: FileSystem, node: string)
      ensures this.fs == fs && this.node == node
      ensures addressCache == None && commandsCache == None && driverNameCache == None
    {
      this.fs := fs;
      this.node := node;
      addressCache := None;
      commandsCache := None;
      driverNameCache := None;
    }

    /** read_attribute(name) on this device's directory. */
    function Read(name: string): Option<string>
      reads fs
    {
      ReadAttribute(fs.files, node, name, false)
    }

    /** The commands `commands` returns now: remembered, or read from the file. */
    function Commands(): Result<seq<string>>
      reads this, fs
    {
      CachedWords(fs.files, node, "commands", commandsCache)
    }

    /** write_attribute(name, value). */
    method WriteAttribute(name: string, value: string)
      modifies fs
      ensures fs.files == old(fs.files)[Path(node, name) := value]
      ensures fs.log == old(fs.log) + [Write(Path(node, name), value)]
    {
      fs.Store(Path(node, name), value);
    }

    /** `address`: read on first use; a missing file is read again next time. */
    method Address() returns (a: Option<string>)
      modifies this
      ensures a == if old(addressCache).Some? then old(addressCache) else Read("address")
      ensures addressCache == a
      ensures commandsCache == old(commandsCache) && driverNameCache == old(driverNameCache)
    {
      if addressCache.None? {
        addressCache := Read("address");
      }
      a := addressCache;
    }

    /** `driver_name`: read on first use; a missing file is read again next time. */
    method DriverName() returns (n: Option<string>)
      modifies this
      ensures n == if old(driverNameCache).Some? then old(driverNameCache) else Read("driver_name")
      ensures driverNameCache == n
      ensures commandsCache == old(commandsCache) && addressCache == old(addressCache)
    {
      if driverNameCache.None? {
        driverNameCache := Read("driver_name");
      }
      n := driverNameCache;
    }

    /** `commands`: the space-separated `commands` attribute, remembered once read. */
    method CommandList() returns (r: Result<seq<string>>)
      modifies this
      ensures r == old(Commands())
      ensures commandsCache == if r.Success? then Some(r.value) else old(commandsCache)
      ensures addressCache == old(addressCache) && driverNameCache == old(driverNameCache)
    {
      if commandsCache.None? {
        r := WordsOf(Read("commands"));
        if r.Success? {
          commandsCache := Some(r.value);
        }
      } else {
        r := Success(commandsCache.value);
      }
    }

    /**
     * `command=` (also `send_command`): writes the command when it is one of
     * `commands`, and otherwise raises without writing.
     */
    method SetCommand(command: string) returns (r: Outcome)
      modifies this, fs
      ensures r == MemberCheck(old(Commands()), command)
      ensures fs.log == old(fs.log) + if r.Pass? then [Write(Path(node, "command"), command)] else []
      ensures fs.files == if r.Pass? then old(fs.files)[Path(node, "command") := command] else old(fs.files)
      ensures commandsCache == if old(Commands()).Success? then Some(old(Commands()).value) else old(commandsCache)
      ensures addressCache == old(addressCache) && driverNameCache == old(driverNameCache)
    {
      var commands := CommandList();
      r := MemberCheck(commands, command);
      if r.Pass? {
        WriteAttribute("command", command);
      }
    }
  }
}
