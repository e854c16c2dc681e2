/** Denominations of tokens received over IBC: a path of port and channel prefixes before the base name. */
module Denom {
  import opened Strings

  /** `parts.slice(n)`. */
  function Slice(parts: seq<string>, n: nat): seq<string>
  {
    if n <= |parts| then parts[n..] else []
  }

  function ParseDenom(denom: string, isSource: bool, dstPort: string, dstChannel: string): string
  {
    if isSource then Join(Slice(Split(denom, '/'), 2), '/') else dstPort + "/" + dstChannel + "/" + denom
  }

  predicate NoSlash(s: string) { '/' !in s }

  lemma SplitPrefixed(port: string, channel: string, denom: string)
    requires NoSlash(port) && NoSlash(channel)
    ensures Split(port + "/" + channel + "/" + denom, '/') == [port, channel] + Split(denom, '/')
  {
    assert port + "/" + channel + "/" + denom == port + ['/'] + (channel + ['/'] + denom);
    SplitAfter(port, channel + ['/'] + denom, '/');
    SplitAfter(channel, denom, '/');
    assert [port] + ([channel] + Split(denom, '/')) == [port, channel] + Split(denom, '/');
  }

  /** A denom that gains a prefix on the way in gets back its old form when the prefix is stripped. */
  lemma DenomRoundTrip(denom: string, port: string, channel: string, port': string, channel': string)
    requires NoSlash(port) && NoSlash(channel)
    ensures ParseDenom(ParseDenom(denom, false, port, channel), true, port', channel') == denom
  {
    SplitPrefixed(port, channel, denom);
    var parts := Split(port + "/" + channel + "/" + denom, '/');
    assert parts[2..] == Split(denom, '/');
    JoinSplit(denom, '/');
  }

  /** The other way round: stripping drops the first two parts, so it can be undone if and only if they were the prefix. */
  lemma StripThenPrefixIff(denom: string, port: string, channel: string)
    requires NoSlash(port) && NoSlash(channel)
    ensures ParseDenom(ParseDenom(denom, true, port, channel), false, port, channel) == denom
            <==> |Split(denom, '/')| >= 3 && Split(denom, '/')[0] == port && Split(denom, '/')[1] == channel
  {
    var parts := Split(denom, '/');
    var stripped := ParseDenom(denom, true, port, channel);
    SplitPrefixed(port, channel, stripped);
    JoinSplit(denom, '/');
    if |parts| >= 3 && parts[0] == port && parts[1] == channel {
      JoinPrefixed(parts);
    }
  }

  lemma JoinPrefixed(parts: seq<string>)
    requires |parts| >= 3
    ensures Join(parts, '/') == parts[0] + "/" + parts[1] + "/" + Join(parts[2..], '/')
  {
    var rest := parts[1..];
    assert rest[1..] == parts[2..] && rest[0] == parts[1];
    assert Join(rest, '/') == parts[1] + ['/'] + Join(parts[2..], '/');
    assert Join(parts, '/') == parts[0] + ['/'] + Join(rest, '/');
    Regroup(parts[0], parts[1], Join(parts[2..], '/'));
  }

  lemma Regroup(a: string, b: string, c: string)
    ensures a + ['/'] + (b + ['/'] + c) == a + "/" + b + "/" + c
  {
  }
}
