/** What the database holds about a package: the types of db.rs and pkg.rs. */
module Records {
  import opened Paths

  /** `S` stands for a file's recorded hash, `P` for how a path is written. The installer
      works on contents and component lists, the text formats on strings. */
  datatype Kind<S, P> = File(sum: S) | Dir | Link(target: string) | Hard(to: P)

  datatype Entry<S, P> = Entry(mode: nat, kind: Kind<S, P>, path: P)

  datatype Provide<P> = Provide(soname: string, versioned: bool, path: P)

  /** `make`: not needed to run. `host`: the host's build is meant. `only`: a suffix the target
      must end in for the line to apply. */
  datatype Dep = Dep(name: string, make: bool, host: bool, only: Option<string>)

  datatype Version = Version(upstream: string, rev: nat)

  type TextEntry = Entry<string, string>

  /** White space, as Unicode has it. */
  predicate White(c: char) {
    var n := c as int;
    || 9 <= n <= 13 || n == 0x20 || n == 0x85 || n == 0xA0 || n == 0x1680 || 0x2000 <= n <= 0x200A
    || n == 0x2028 || n == 0x2029 || n == 0x202F || n == 0x205F || n == 0x3000
  }
}
