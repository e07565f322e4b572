/** Grunt command-line option values as `grunt.option(name)` returns them:
    absent, a boolean flag (`--x` or `--no-x`), or a string (`--x=v`). */
module Options {

  datatype OptValue = Unset | Flag(on: bool) | Text(s: string) {
    /** JavaScript truthiness of the option value. */
    predicate Truthy() {
      match this
      case Unset => false
      case Flag(on) => on
      case Text(s) => s != ""
    }
  }

  /** The three options that restrict which nodes and containers a task
      touches: `--nodetype`, `--nodeid` and `--containerid`. */
  datatype SelectionOptions = SelectionOptions(nodetype: OptValue, nodeid: OptValue, containerid: OptValue)
}
