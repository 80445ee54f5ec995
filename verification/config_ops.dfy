/**
 * The `config` table and its accessors (`database/config_ops.py`): a key-value store
 * holding the media root under "root_dir" and the server port under "port", as text.
 */
module ConfigOps {
  import opened Wrappers

  const ROOT_KEY := "root_dir"
  const PORT_KEY := "port"
  const MIN_PORT := 1
  const MAX_PORT := 65535

  /** The ValueErrors the setters raise before touching the store. */
  datatype ConfigError = EmptyRootDir | PortOutOfRange

  predicate IsDigit(c: char)
  {
    '0' <= c <= '9'
  }

  /** `str.isdigit()` on ASCII text: non-empty, and every character a digit. */
  predicate IsDigits(s: string)
  {
    |s| > 0 && forall i :: 0 <= i < |s| ==> IsDigit(s[i])
  }

  function DigitValue(c: char): (d: nat)
    requires IsDigit(c)
    ensures d < 10
  {
    (c as int - '0' as int) as nat
  }

  function DigitChar(d: nat): (c: char)
    requires d < 10
    ensures IsDigit(c) && DigitValue(c) == d
  {
    ('0' as int + d) as char
  }

  /** `int(s)` on a string of ASCII digits, leading zeros allowed. */
  function ParseDigits(s: string): nat
    requires forall i :: 0 <= i < |s| ==> IsDigit(s[i])
  {
    if s == [] then 0 else 10 * ParseDigits(s[..|s| - 1]) + DigitValue(s[|s| - 1])
  }

  /** `str(n)` for a non-negative integer: decimal, no leading zero. */
  function PortString(n: nat): (s: string)
  {
    if n < 10 then [DigitChar(n)] else PortString(n / 10) + [DigitChar(n % 10)]
  }

  /** `str` then `isdigit` then `int` gives the number back. */
  lemma {:induction false} PortStringRoundTrip(n: nat)
    ensures IsDigits(PortString(n))
    ensures ParseDigits(PortString(n)) == n
  {
    if n >= 10 {
      PortStringRoundTrip(n / 10);
      var s := PortString(n);
      assert s[..|s| - 1] == PortString(n / 10);
    }
  }

  /** `PortString` never starts with a zero except for zero itself. */
  lemma {:induction false} PortStringNoLeadingZero(n: nat)
    ensures PortString(n)[0] == '0' <==> n == 0
  {
    if n >= 10 {
      PortStringNoLeadingZero(n / 10);
    }
  }

  /** The committed `config` table. Each setter is a merge on the key and a commit. */
  class ConfigTable {
    var entries: map<string, string>

    constructor (entries: map<string, string>)
      ensures this.entries == entries
    {
      this.entries := entries;
    }

    /** `_get_config(session, key, default)`. */
    function GetConfig(key: string, default: Option<string>): (v: Option<string>)
      reads this
      ensures key in entries ==> v == Some(entries[key])
      ensures key !in entries ==> v == default
    {
      if key in entries then Some(entries[key]) else default
    }

    /** `_set_config`: an upsert on the primary key, committed at once. */
    method SetConfig(key: string, value: string)
      modifies this
      ensures entries == old(entries)[key := value]
    {
      entries := entries[key := value];
    }

    function GetRootDir(): (v: Option<string>)
      reads this
      ensures v.Some? <==> ROOT_KEY in entries
      ensures v.Some? ==> v.value == entries[ROOT_KEY]
    {
      GetConfig(ROOT_KEY, None)
    }

    /** `set_root_dir`: an empty path is refused and nothing is written. */
    method SetRootDir(path: string) returns (err: Option<ConfigError>)
      modifies this
      ensures path == "" ==> err == Some(EmptyRootDir) && entries == old(entries)
      ensures path != "" ==> err == None && entries == old(entries)[ROOT_KEY := path]
      ensures path != "" ==> GetRootDir() == Some(path)
      ensures GetPort() == old(GetPort())
    {
      if path == "" {
        return Some(EmptyRootDir);
      }
      SetConfig(ROOT_KEY, path);
      return None;
    }

    /** `get_port`: the stored text read as a number when it is all digits, else None. */
    function GetPort(): (p: Option<nat>)
      reads this
      ensures p.Some? <==> PORT_KEY in entries && IsDigits(entries[PORT_KEY])
      ensures p.Some? ==> p.value == ParseDigits(entries[PORT_KEY])
    {
      var text := GetConfig(PORT_KEY, None);
      if text.Some? && IsDigits(text.value) then Some(ParseDigits(text.value)) else None
    }

    /** `set_port`: anything outside 1..65535 is refused and nothing is written. */
    method SetPort(port: int) returns (err: Option<ConfigError>)
      modifies this
      ensures !(MIN_PORT <= port <= MAX_PORT) ==> err == Some(PortOutOfRange) && entries == old(entries)
      ensures MIN_PORT <= port <= MAX_PORT ==> err == None && entries == old(entries)[PORT_KEY := PortString(port)]
      ensures MIN_PORT <= port <= MAX_PORT ==> GetPort() == Some(port)
      ensures GetRootDir() == old(GetRootDir())
    {
      if port < MIN_PORT || port > MAX_PORT {
        return Some(PortOutOfRange);
      }
      PortStringRoundTrip(port);
      SetConfig(PORT_KEY, PortString(port));
      return None;
    }
  }
}
