/** Proxy strings given on the command line (main.js:382-398): either
    `user:pass@host:port` or `host:port:user:pass`, turned into the proxy
    record handed to the browser. */
module Proxy {
  import opened Wrappers
  import opened Text

  /** The proxy record the Puppeteer launch uses (the server for
      `--proxy-server`, the credentials for `page.authenticate`); an absent
      user name or password is
      JavaScript's `undefined`. */
  datatype ProxyConfig = ProxyConfig(server: string, username: Option<string>, password: Option<string>)

  /** Array destructuring: element `i`, or `undefined` past the end. */
  function Part(parts: seq<string>, i: nat): (x: Option<string>)
    ensures x.Some? <==> i < |parts|
    ensures x.Some? ==> x.value == parts[i]
  {
    if i < |parts| then Some(parts[i]) else None
  }

  /** A value interpolated into a template literal: `undefined` prints as such. */
  function Show(x: Option<string>): string {
    x.GetOr("undefined")
  }

  function ServerUrl(host: string, port: Option<string>): string {
    "http://" + host + ":" + Show(port)
  }

  /** `host` and `port` are the first two `:`-separated fields of `t`, as
      destructuring `t.split(':')` gives them; no second field is `undefined`. */
  predicate HostPortOf(t: string, host: string, port: Option<string>) {
    LeadingField(host, t, ':')
    && (port.Some? <==> |host| < |t|)
    && (port.Some? ==> LeadingField(port.value, t[|host| + 1..], ':'))
  }

  lemma HostPortOfSplit(t: string)
    ensures HostPortOf(t, Split(t, ':')[0], Part(Split(t, ':'), 1))
  {
    SplitLeads(t, ':');
    SplitHasSeparator(t, ':');
    if |Split(t, ':')| >= 2 {
      SplitSecondLeads(t, ':');
    }
  }

  /** `parseProxy`: `None` stands for `null`. The empty string means no proxy;
      the `catch` is reached only if the part after `@` were missing, which
      cannot happen once `@` occurs in the input. */
  function ParseProxy(s: string): (r: Option<ProxyConfig>)
    ensures r.None? <==> s == []
    ensures s != [] && '@' !in s ==>
              exists host: string, port: Option<string> ::
                HostPortOf(s, host, port) && r.value.server == ServerUrl(host, port)
    ensures '@' in s ==>
              exists i: nat, server: string, host: string, port: Option<string> ::
                i < |s| && LeadingField(s[..i], s, '@') && LeadingField(server, s[i + 1..], '@')
                && HostPortOf(server, host, port) && r.value.server == ServerUrl(host, port)
  {
    if s == [] then None
    else if '@' in s then
      var halves := Split(s, '@');
      SplitHasSeparator(s, '@');
      match Part(halves, 1)
      case None => None
      case Some(server) =>
        var auth := Split(halves[0], ':');
        var hostPort := Split(server, ':');
        SplitLeads(s, '@');
        SplitSecondLeads(s, '@');
        HostPortOfSplit(server);
        var i := |halves[0]|;
        assert s[..i] == halves[0];
        assert i < |s| && LeadingField(s[..i], s, '@') && LeadingField(server, s[i + 1..], '@');
        Some(ProxyConfig(ServerUrl(hostPort[0], Part(hostPort, 1)), Part(auth, 0), Part(auth, 1)))
    else
      var fields := Split(s, ':');
      HostPortOfSplit(s);
      Some(ProxyConfig(ServerUrl(fields[0], Part(fields, 1)), Part(fields, 2), Part(fields, 3)))
  }

  /** A piece that can sit between separators of either form. */
  predicate Field(x: string) {
    ':' !in x && '@' !in x
  }

  /** `user:pass@host:port` is read back into its four parts. */
  lemma AuthFormRoundTrip(user: string, pass: string, host: string, port: string)
    requires Field(user) && Field(pass) && Field(host) && Field(port)
    ensures ParseProxy(user + ":" + pass + "@" + host + ":" + port)
         == Some(ProxyConfig("http://" + host + ":" + port, Some(user), Some(pass)))
  {
    var auth := user + ":" + pass;
    var server := host + ":" + port;
    var s := user + ":" + pass + "@" + host + ":" + port;
    assert s == auth + ['@'] + server;
    assert '@' in s by { assert s[|auth|] == '@'; }
    assert '@' !in auth && '@' !in server;
    SplitAtFirst(auth, server, '@');
    SplitNoSeparator(server, '@');
    assert Split(s, '@') == [auth, server];
    SplitAtFirst(user, pass, ':');
    SplitNoSeparator(pass, ':');
    assert auth == user + [':'] + pass;
    SplitAtFirst(host, port, ':');
    SplitNoSeparator(port, ':');
    assert server == host + [':'] + port;
  }

  /** `host:port:user:pass` is read back into its four parts. */
  lemma ColonFormRoundTrip(host: string, port: string, user: string, pass: string)
    requires Field(user) && Field(pass) && Field(host) && Field(port)
    ensures ParseProxy(host + ":" + port + ":" + user + ":" + pass)
         == Some(ProxyConfig("http://" + host + ":" + port, Some(user), Some(pass)))
  {
    var s := host + ":" + port + ":" + user + ":" + pass;
    var parts := [host, port, user, pass];
    assert parts[1..][1..][1..] == [pass];
    assert Join(parts[1..][1..], ':') == user + ":" + pass;
    assert Join(parts[1..], ':') == port + ":" + user + ":" + pass;
    assert s == Join(parts, ':');
    SplitJoin([host, port, user, pass], ':');
    assert '@' !in s;
  }

  /** A bare `host:port` gives no credentials. */
  lemma HostPortOnly(host: string, port: string)
    requires Field(host) && Field(port)
    ensures ParseProxy(host + ":" + port) == Some(ProxyConfig("http://" + host + ":" + port, None, None))
  {
    var s := host + ":" + port;
    assert [host, port][1..] == [port];
    assert s == Join([host, port], ':');
    SplitJoin([host, port], ':');
    assert '@' !in s;
  }

  /** A malformed, non-empty string is not rejected: without `:` the port
      is the text `undefined`. */
  lemma NoSeparatorYieldsUndefinedPort(s: string)
    requires s != [] && Field(s)
    ensures ParseProxy(s) == Some(ProxyConfig("http://" + s + ":undefined", None, None))
  {
    SplitNoSeparator(s, ':');
    assert Part(Split(s, ':'), 1) == None;
    assert "http://" + s + ":" + "undefined" == "http://" + s + ":undefined";
  }
}
