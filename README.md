# Orchestration Adapter — Dafny model

The orchestration library drives container runtimes (a local engine, a
cluster scheduler, …) through one abstract class, `Adapter`. Each backend
subclasses it and implements the runtime operations (`pull`, `list`, `run`,
`execute`, `remove`). The base class itself holds only two kinds of logic:

- `filterEnvKey`, the sanitiser backends use on environment-variable names.
  It deletes every byte that is not an ASCII letter, an ASCII digit or `_`.
  The pattern has no `u` modifier, so PHP matches it byte by byte. The model
  therefore works on byte strings (`Bytes.Bytes`, a `seq` of `byte`), and
  every byte of a multi-byte UTF-8 character is deleted.
- The per-adapter configuration: the container `namespace` (default
  `utopia`) and the per-container `cpus`, `memory` and `swap` limits (default
  0, meaning "no limit"). It is changed only by four fluent setters. Each
  setter overwrites one field and returns the adapter itself.

Files:

- `bytes.dfy` (module `Bytes`): PHP strings as bytes, and PHP's 64-bit `int`
  as the `int64` newtype.
- `env_key.dfy` (module `EnvKey`): `FilterEnvKey` and its properties. The
  result uses only allowed bytes and keeps their order. It is the largest
  such subsequence of the input, and it keeps the count of every allowed
  byte. It is idempotent. Inputs made only of allowed bytes are fixed points,
  and inputs with none of them give the empty string. It distributes over
  concatenation.
- `adapter.dfy` (module `Orchestration`): the configuration as a value
  (`Config`) and the setter calls as values (`Setter`, applied by `Apply`;
  a chain of calls by `ApplyAll`). Lemmas cover what one call and a chain
  of calls do. The class `Adapter` holds the four fields, and its setters
  are proved against `Apply`.

The setters do not check their argument: any PHP `int` is stored as given,
negative values included, and the model stores any `int64` as given. What a
negative limit means is left to the backends.

## Model

| member | source | states |
|---|---|---|
| `EnvKey.IsKeyByte` | src/Orchestration/Adapter.php:36 | the bytes the pattern keeps are `A`-`Z`, `a`-`z`, `0`-`9` and `_`; none of them is outside ASCII, so every byte of 0x80 or above is deleted |
| `EnvKey.FilterEnvKey` | src/Orchestration/Adapter.php:34-37 | total on every byte string; the result is no longer than the input and contains only ASCII letters, digits and `_` |
| `EnvKey.FilterIsSubsequence` | src/Orchestration/Adapter.php:36 | the result is obtained from the input by deletions only, so the kept bytes keep their relative order |
| `EnvKey.FilterKeepsEveryKeySubsequence` | src/Orchestration/Adapter.php:36 | no allowed byte is lost: every subsequence of the input made of allowed bytes is a subsequence of the result, so the result is the largest such subsequence |
| `EnvKey.FilterCounts` | src/Orchestration/Adapter.php:36 | each allowed byte occurs in the result as often as in the input; every other byte does not occur |
| `EnvKey.FilterFixpoint` | src/Orchestration/Adapter.php:36 | the result equals the input if and only if every byte of the input is allowed |
| `EnvKey.FilterKeepsLength` | src/Orchestration/Adapter.php:36 | the result is as long as the input if and only if every byte of the input is allowed |
| `EnvKey.FilterEmpty` | src/Orchestration/Adapter.php:36 | the result is the empty string, an ordinary result rather than an error, if and only if no byte of the input is allowed |
| `EnvKey.FilterIdempotent` | src/Orchestration/Adapter.php:36 | filtering twice gives the same result as filtering once |
| `EnvKey.FilterConcat` | src/Orchestration/Adapter.php:36 | filtering distributes over concatenation: each byte is kept or deleted on its own |
| `EnvKey.FilterExample` | src/Orchestration/Adapter.php:36 | `FOO-BAR!1` becomes `FOOBAR1` |
| `Orchestration.Adapter.constructor` | src/Orchestration/Adapter.php:10-25 | a new adapter has namespace `utopia` and CPU, memory and swap limits 0 |
| `Orchestration.Adapter.SetNamespace` | src/Orchestration/Adapter.php:99-103 | stores the given namespace, leaves the three limits unchanged, returns the same adapter |
| `Orchestration.Adapter.SetCpus` | src/Orchestration/Adapter.php:111-115 | stores the given core count as given (negative included), leaves the other fields unchanged, returns the same adapter |
| `Orchestration.Adapter.SetMemory` | src/Orchestration/Adapter.php:123-127 | stores the given memory limit as given, leaves the other fields unchanged, returns the same adapter |
| `Orchestration.Adapter.SetSwap` | src/Orchestration/Adapter.php:135-139 | stores the given swap limit as given, leaves the other fields unchanged, returns the same adapter |
| `Orchestration.ApplyWritesOneField` | src/Orchestration/Adapter.php:99-139 | a setter call stores its argument in its own field and leaves the other three fields as they were |
| `Orchestration.SettersCommute` | src/Orchestration/Adapter.php:99-139 | calls to setters of different fields commute |
| `Orchestration.LastWriteWins` | src/Orchestration/Adapter.php:99-139 | of two calls to the same setter, only the second one is visible |
| `Orchestration.ApplyAllAppend` | src/Orchestration/Adapter.php:99-139 | a chain of setter calls followed by another chain is the same as the joined chain |
| `Orchestration.ApplyAllReadsLastCall` | src/Orchestration/Adapter.php:99-139 | after a chain of setter calls, each field holds the argument of the last call that wrote it, or its earlier value if no call did |
| `Orchestration.ChainsAgree` | src/Orchestration/Adapter.php:99-139 | two chains whose last call per field is the same produce the same configuration, whatever order their calls come in |

## Left out

- `pull`, `list`, `run`, `execute`, `remove` (src/Orchestration/Adapter.php:46, 53, 69, 82, 91): abstract in the base class. Their behaviour is runtime I/O in the backends (process spawning, daemon sockets, cluster APIs), which are not part of this model. The base class promises nothing about them, so a signature without a contract would add nothing, and they are not declared.
- The `execute` timeout, the killing of the child process and the capture of stdout/stderr through reference parameters: process control and blocking I/O in the backends.
- The `Container` type returned by `list`: it is defined by the backends and is not part of this model.
- The use of `filterEnvKey` on the keys of `vars` in `run` and `execute`: that happens inside the backends.
- The `null` result of `preg_replace` on an internal regex failure: the pattern is fixed and valid, so `FilterEnvKey` is total.
- `Orchestration.Adapter.constructor`: PHP cannot instantiate the abstract class. The constructor stands for the field initialisers that run when a concrete backend is constructed.
- `EnvKey.FilterEnvKey`: in PHP it is an instance method of `Adapter`. It never reads the adapter's fields, so the model has it as a function of its argument alone.
- The setters' PHP parameter coercion (a non-`int` argument converted or rejected by PHP's type declarations) is not modelled; the setters take an `int64`.
- Thread safety and consistent snapshots of the limits under concurrent `run` calls: the base class has no concurrency control.
