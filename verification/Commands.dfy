/**
 Client commands as the RESP layer hands them to the executor
 (src/astra/protocol/resp/resp_types.hpp): a name and typed arguments.
 */
module Commands {

  datatype ArgType = BulkString | SimpleString | Integer | Null

  datatype CommandArg = CommandArg(kind: ArgType, value: string)

  datatype Command = Command(name: string, args: seq<CommandArg>)

  /** IsBulkString() || IsSimpleString(), the test every routing decision makes. */
  predicate IsText(a: CommandArg) {
    a.kind.BulkString? || a.kind.SimpleString?
  }

  function ToUpper(c: char): char {
    if 'a' <= c <= 'z' then c - 'a' + 'A' else c
  }

  /** absl::EqualsIgnoreCase on ASCII. */
  predicate EqualsIgnoreCase(a: string, b: string) {
    |a| == |b| && forall i | 0 <= i < |a| :: ToUpper(a[i]) == ToUpper(b[i])
  }

  /** The transaction control commands, and everything else. */
  datatype Kind = Multi | ExecCommand | DiscardCommand | WatchCommand | UnwatchCommand | Data

  function KindOf(name: string): Kind {
    if EqualsIgnoreCase(name, "MULTI") then Multi
    else if EqualsIgnoreCase(name, "EXEC") then ExecCommand
    else if EqualsIgnoreCase(name, "DISCARD") then DiscardCommand
    else if EqualsIgnoreCase(name, "WATCH") then WatchCommand
    else if EqualsIgnoreCase(name, "UNWATCH") then UnwatchCommand
    else Data
  }
}
