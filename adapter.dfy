/** The shared, backend-independent part of the abstract `Adapter` class:
    the per-instance configuration (container namespace and per-container
    CPU, memory and swap limits) and the fluent setters that change it.
    The configuration is given as a value, `Config`, and the setter calls
    as values, `Setter`, so that chains of calls can be reasoned about;
    the `Adapter` class holds the fields and its methods are proved
    against `Apply`. */
module Orchestration {
  import opened Bytes

  /** The four configuration fields. */
  datatype Field = Namespace | Cpus | Memory | Swap

  /** One call of a setter, with its argument: `NamespaceCall(n)` stands
      for `setNamespace(n)`, `CpusCall(n)` for `setCpus(n)`, `MemoryCall(n)`
      for `setMemory(n)` and `SwapCall(n)` for `setSwap(n)`. */
  datatype Setter =
    | NamespaceCall(namespace: Bytes)
    | CpusCall(cores: int64)
    | MemoryCall(mb: int64)
    | SwapCall(mb: int64)
  {
    /** The field the call writes. */
    function Target(): Field {
      match this
      case NamespaceCall(_) => Namespace
      case CpusCall(_) => Cpus
      case MemoryCall(_) => Memory
      case SwapCall(_) => Swap
    }
  }

  /** The configuration an adapter applies to the containers it starts.
      A limit of 0 asks for no limit; no range is enforced. */
  datatype Config = Config(namespace: Bytes, cpus: int64, memory: int64, swap: int64)
  {
    /** The value of field `f`, wrapped in the setter call that would
        store it (`Read(Cpus) == CpusCall(cpus)`). Wrapping lets one
        function return fields of different types; it performs no call. */
    function Read(f: Field): (s: Setter)
      ensures s.Target() == f
    {
      match f
      case Namespace => NamespaceCall(namespace)
      case Cpus => CpusCall(cpus)
      case Memory => MemoryCall(memory)
      case Swap => SwapCall(swap)
    }
  }

  /** The default namespace, `utopia`. */
  const DefaultNamespace: Bytes := Ascii("utopia")

  /** The configuration of a new adapter. */
  const Defaults: Config := Config(DefaultNamespace, 0, 0, 0)

  /** The configuration after one setter call. */
  function Apply(c: Config, s: Setter): Config {
    match s
    case NamespaceCall(n) => c.(namespace := n)
    case CpusCall(n) => c.(cpus := n)
    case MemoryCall(n) => c.(memory := n)
    case SwapCall(n) => c.(swap := n)
  }

  /** The configuration after a chain of setter calls, made in order. */
  function ApplyAll(c: Config, calls: seq<Setter>): Config {
    if calls == [] then c
    else Apply(ApplyAll(c, calls[..|calls| - 1]), calls[|calls| - 1])
  }

  datatype Option<T> = None | Some(value: T)

  /** The last call in `calls` that writes field `f`, if any. */
  function LastCall(calls: seq<Setter>, f: Field): (r: Option<Setter>)
    ensures r.Some? ==> r.value in calls && r.value.Target() == f
    ensures r.None? <==> forall i :: 0 <= i < |calls| ==> calls[i].Target() != f
  {
    if calls == [] then None
    else if calls[|calls| - 1].Target() == f then Some(calls[|calls| - 1])
    else LastCall(calls[..|calls| - 1], f)
  }

  /** A configuration is determined by its four fields. */
  lemma ConfigExtensional(c: Config, d: Config)
    requires forall f: Field :: c.Read(f) == d.Read(f)
    ensures c == d
  {
    assert c.Read(Namespace) == d.Read(Namespace);
    assert c.Read(Cpus) == d.Read(Cpus);
    assert c.Read(Memory) == d.Read(Memory);
    assert c.Read(Swap) == d.Read(Swap);
  }

  /** A setter stores its argument, as given, in its own field and leaves
      the other three fields as they were. */
  lemma ApplyWritesOneField(c: Config, s: Setter, f: Field)
    ensures Apply(c, s).Read(f) == if f == s.Target() then s else c.Read(f)
  {
  }

  /** Calls to setters of different fields commute. */
  lemma SettersCommute(c: Config, s: Setter, t: Setter)
    requires s.Target() != t.Target()
    ensures Apply(Apply(c, s), t) == Apply(Apply(c, t), s)
  {
  }

  /** Of two calls to the same setter, the second one wins. */
  lemma LastWriteWins(c: Config, s: Setter, t: Setter)
    requires s.Target() == t.Target()
    ensures Apply(Apply(c, s), t) == Apply(c, t)
  {
  }

  /** Chaining two chains is one chain. */
  lemma {:induction false} ApplyAllAppend(c: Config, a: seq<Setter>, b: seq<Setter>)
    ensures ApplyAll(c, a + b) == ApplyAll(ApplyAll(c, a), b)
    decreases |b|
  {
    if b == [] {
      assert a + b == a;
    } else {
      var n := |b| - 1;
      assert (a + b)[..|a + b| - 1] == a + b[..n];
      assert (a + b)[|a + b| - 1] == b[n];
      ApplyAllAppend(c, a, b[..n]);
    }
  }

  /** After a chain of calls, each field holds the argument of the last
      call that wrote it, or its earlier value when no call did. */
  lemma {:induction false} ApplyAllReadsLastCall(c: Config, calls: seq<Setter>, f: Field)
    ensures ApplyAll(c, calls).Read(f) ==
      match LastCall(calls, f)
      case Some(s) => s
      case None => c.Read(f)
  {
    if calls != [] {
      var n := |calls| - 1;
      ApplyAllReadsLastCall(c, calls[..n], f);
      ApplyWritesOneField(ApplyAll(c, calls[..n]), calls[n], f);
    }
  }

  /** Two chains that end with the same call for every field give the
      same configuration, whatever order the calls came in and however
      many earlier calls they overwrote. */
  lemma ChainsAgree(c: Config, a: seq<Setter>, b: seq<Setter>)
    requires forall f: Field :: LastCall(a, f) == LastCall(b, f)
    ensures ApplyAll(c, a) == ApplyAll(c, b)
  {
    forall f: Field ensures ApplyAll(c, a).Read(f) == ApplyAll(c, b).Read(f) {
      ApplyAllReadsLastCall(c, a, f);
      ApplyAllReadsLastCall(c, b, f);
    }
    ConfigExtensional(ApplyAll(c, a), ApplyAll(c, b));
  }

  /** The shared state of every orchestration backend. The operations
      that reach a container runtime (pull, list, run, execute, remove)
      belong to the backends and are not part of this model. */
  class Adapter {
    var namespace: Bytes
    var cpus: int64
    var memory: int64
    var swap: int64

    /** The adapter's configuration as a value. */
    function Settings(): Config
      reads this
    {
      Config(namespace, cpus, memory, swap)
    }

    /** A new adapter: namespace `utopia`, every limit 0. */
    constructor ()
      ensures namespace == DefaultNamespace && cpus == 0 && memory == 0 && swap == 0
      ensures Settings() == Defaults
    {
      namespace := DefaultNamespace;
      cpus := 0;
      memory := 0;
      swap := 0;
    }

    /** Sets the namespace of the containers; returns the adapter itself. */
    method SetNamespace(ns: Bytes) returns (self: Adapter)
      modifies this
      ensures self == this
      ensures namespace == ns
      ensures cpus == old(cpus) && memory == old(memory) && swap == old(swap)
      ensures Settings() == Apply(old(Settings()), NamespaceCall(ns))
    {
      namespace := ns;
      self := this;
    }

    /** Sets the maximum number of CPU cores per container; any value is
        stored as given. Returns the adapter itself. */
    method SetCpus(cores: int64) returns (self: Adapter)
      modifies this
      ensures self == this
      ensures cpus == cores
      ensures namespace == old(namespace) && memory == old(memory) && swap == old(swap)
      ensures Settings() == Apply(old(Settings()), CpusCall(cores))
    {
      cpus := cores;
      self := this;
    }

    /** Sets the maximum memory per container, in megabytes; any value is
        stored as given. Returns the adapter itself. */
    method SetMemory(mb: int64) returns (self: Adapter)
      modifies this
      ensures self == this
      ensures memory == mb
      ensures namespace == old(namespace) && cpus == old(cpus) && swap == old(swap)
      ensures Settings() == Apply(old(Settings()), MemoryCall(mb))
    {
      memory := mb;
      self := this;
    }

    /** Sets the maximum swap per container, in megabytes; any value is
        stored as given. Returns the adapter itself. */
    method SetSwap(mb: int64) returns (self: Adapter)
      modifies this
      ensures self == this
      ensures swap == mb
      ensures namespace == old(namespace) && cpus == old(cpus) && memory == old(memory)
      ensures Settings() == Apply(old(Settings()), SwapCall(mb))
    {
      swap := mb;
      self := this;
    }
  }
}
