/** The shared configuration loader (`shared/config/config.go`): environment
    lookups with defaults and the comma-separated list of allowed origins.
    The environment is passed in as a map from variable name to value; an
    unset variable reads as "", as `os.Getenv` does. */
module Config {
  import Text
  import Tables

  type Env = map<string, string>

  /** `os.Getenv(key)`. */
  function Getenv(env: Env, key: string): string {
    if key in env then env[key] else ""
  }

  /** `getEnv`: the variable's value when it is non-empty, else the default. */
  function GetEnv(env: Env, key: string, defaultValue: string): (v: string)
    ensures Getenv(env, key) != "" ==> v == Getenv(env, key)
    ensures Getenv(env, key) == "" ==> v == defaultValue
  {
    if Getenv(env, key) != "" then env[key] else defaultValue
  }

  const DefaultOrigin: string := "http://localhost:5173"

  predicate NonEmpty(s: string) { s != "" }

  /** What `getAllowedOrigins` returns for the value of ALLOWED_ORIGINS: the
      default origin for an empty value, else the non-empty comma-separated
      pieces, untrimmed and in order. */
  function AllowedOrigins(value: string): seq<string> {
    if value == "" then [DefaultOrigin] else Tables.Filter(Text.Split(value, ','), NonEmpty)
  }

  /** `getAllowedOrigins`: walks the value rune by rune, closing the current
      piece at each comma and keeping only non-empty pieces. */
  method GetAllowedOrigins(value: string) returns (origins: seq<string>)
    ensures origins == AllowedOrigins(value)
  {
    if value == "" {
      return [DefaultOrigin];
    }
    origins := [];
    var current := "";
    ghost var closed: seq<string> := [];
    for i := 0 to |value|
      invariant Text.Split(value[..i], ',') == closed + [current]
      invariant origins == Tables.Filter(closed, NonEmpty)
    {
      SplitStep(value, i, closed, current);
      if value[i] == ',' {
        Tables.FilterAppend(closed, [current], NonEmpty);
        if current != "" {
          origins := origins + [current];
        }
        closed := closed + [current];
        current := "";
      } else {
        current := current + [value[i]];
      }
    }
    Tables.FilterAppend(closed, [current], NonEmpty);
    assert value[..|value|] == value;
    if current != "" {
      origins := origins + [current];
    }
  }

  /** One more rune either closes the current piece or extends it. */
  lemma SplitStep(value: string, i: nat, closed: seq<string>, current: string)
    requires i < |value| && Text.Split(value[..i], ',') == closed + [current]
    ensures Text.Split(value[..i + 1], ',')
      == if value[i] == ',' then closed + [current] + [""] else closed + [current + [value[i]]]
  {
    Text.SplitSnoc(value[..i], value[i], ',');
    assert value[..i + 1] == value[..i] + [value[i]];
    assert (closed + [current])[..|closed|] == closed;
  }

  /** The list is never empty, holds no empty entry and no entry with a
      comma. */
  lemma OriginsWellFormed(value: string)
    ensures value == "" ==> AllowedOrigins(value) == ["http://localhost:5173"]
    ensures forall k :: 0 <= k < |AllowedOrigins(value)| ==>
      AllowedOrigins(value)[k] != "" && ',' !in AllowedOrigins(value)[k]
  {
    if value != "" {
      var parts := Text.Split(value, ',');
      forall k | 0 <= k < |AllowedOrigins(value)|
        ensures ',' !in AllowedOrigins(value)[k]
      {
        Tables.FilterMember(parts, NonEmpty, AllowedOrigins(value)[k]);
      }
    }
  }

  /** The entries are the input's pieces in their order: an order-preserving
      subsequence of the comma split, and every non-empty piece is present. */
  lemma OriginsKeepOrder(value: string, piece: string)
    requires value != ""
    ensures Tables.IsSubsequence(AllowedOrigins(value), Text.Split(value, ','))
    ensures piece in AllowedOrigins(value) <==> piece in Text.Split(value, ',') && piece != ""
  {
    Tables.FilterIsSubsequence(Text.Split(value, ','), NonEmpty);
    Tables.FilterMember(Text.Split(value, ','), NonEmpty, piece);
  }

  /** Without empty pieces (no leading, trailing or doubled comma), joining
      the entries with ',' gives back the input exactly, whitespace included. */
  lemma OriginsJoinBack(value: string)
    requires value != ""
    requires forall k :: 0 <= k < |Text.Split(value, ',')| ==> Text.Split(value, ',')[k] != ""
    ensures Text.Join(AllowedOrigins(value), ',') == value
  {
    Tables.FilterAll(Text.Split(value, ','), NonEmpty);
  }

  /** Each comma closes one piece, which is kept when non-empty. */
  lemma PiecesCons(a: string, b: string)
    requires ',' !in a
    ensures Tables.Filter(Text.Split(a + [','] + b, ','), NonEmpty)
      == (if a != "" then [a] else []) + Tables.Filter(Text.Split(b, ','), NonEmpty)
  {
    Text.SplitCons(a, b, ',');
    var parts := Text.Split(a + [','] + b, ',');
    assert parts[0] == a && parts[1..] == Text.Split(b, ',');
  }
}
