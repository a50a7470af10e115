/** The two pure pieces of the controller: the per-pair log path and the
    environment handed to the validator container. */
module Naming {
  import opened Wrappers

  /** The path separator of the host (`filepath.Separator` on Unix). */
  const Separator: char := '/'

  /** `strings.Replace(name, separator, "_", -1)`: every separator in a client
      name becomes an underscore, so the name is one path component. */
  function SanitizeName(name: string): (r: string)
    ensures |r| == |name|
    ensures Separator !in r
    ensures forall i :: 0 <= i < |name| ==> r[i] == (if name[i] == Separator then '_' else name[i])
  {
    if name == [] then []
    else [if name[0] == Separator then '_' else name[0]] + SanitizeName(name[1..])
  }

  /** Sanitising an already sanitised name changes nothing. */
  lemma SanitizeIdempotent(name: string)
    ensures SanitizeName(SanitizeName(name)) == SanitizeName(name)
  {
    var once := SanitizeName(name);
    SanitizeKeepsPlainNames(once);
  }

  /** A name without a separator is its own log directory name. */
  lemma SanitizeKeepsPlainNames(name: string)
    ensures Separator !in name <==> SanitizeName(name) == name
  {
    var r := SanitizeName(name);
    if Separator !in name {
      assert forall i :: 0 <= i < |name| ==> r[i] == name[i];
    }
  }

  /** `filepath.Join(dir, name)` for a clean directory and a one-component name. */
  function Join(dir: string, name: string): (p: string)
    ensures |p| == |dir| + 1 + |name|
  {
    dir + [Separator] + name
  }

  /** The joined path is the directory, one separator, and the name; a name
      without a separator is therefore the path's last component. */
  lemma JoinParts(dir: string, name: string)
    ensures var p := Join(dir, name);
      p[..|dir|] == dir && p[|dir|] == Separator && p[|dir| + 1..] == name
      && (Separator !in name ==> forall i :: |dir| < i < |p| ==> p[i] != Separator)
  {
    var p := Join(dir, name);
    assert p[|dir| + 1..] == name;
  }

  const ClientIpVar: string := "HIVE_CLIENT_IP"
  const ClientIdVar: string := "HIVE_CLIENT_ID"
  const HostAliasVar: string := "HIVE_DOCKER_HOST_ALIAS"

  /** True when `entry` is a `key=value` assignment of `key`. */
  predicate Assigns(entry: string, key: string)
  {
    |key| < |entry| && entry[..|key|] == key && entry[|key|] == '='
  }

  /** How a process reads a variable from its environment: the value of the
      first assignment of `key`. */
  function EnvValue(env: seq<string>, key: string): (v: Option<string>)
    ensures v.None? <==> forall i :: 0 <= i < |env| ==> !Assigns(env[i], key)
  {
    if env == [] then None
    else if Assigns(env[0], key) then Some(env[0][|key| + 1..])
    else EnvValue(env[1..], key)
  }

  /** The environment of the validator container: the client's address, the
      client's container ID and the docker host alias, in that order. */
  function ValidatorEnv(ip: string, id: string, alias: string): (env: seq<string>)
    ensures |env| == 3
  {
    [ClientIpVar + "=" + ip, ClientIdVar + "=" + id, HostAliasVar + "=" + alias]
  }

  /** The validator reads back the client's address, the client's container
      ID and the docker host alias unchanged from its environment. */
  lemma ValidatorEnvReadBack(ip: string, id: string, alias: string)
    ensures var env := ValidatorEnv(ip, id, alias);
      && EnvValue(env, ClientIpVar) == Some(ip)
      && EnvValue(env, ClientIdVar) == Some(id)
      && EnvValue(env, HostAliasVar) == Some(alias)
  {
    var env := ValidatorEnv(ip, id, alias);
    assert Assigns(env[0], ClientIpVar) && (env[0])[|ClientIpVar| + 1..] == ip;
    assert !Assigns(env[0], ClientIdVar) by { assert env[0][13] != ClientIdVar[13]; }
    assert Assigns(env[1], ClientIdVar) && (env[1])[|ClientIdVar| + 1..] == id;
    assert !Assigns(env[0], HostAliasVar) by { assert env[0][5] != HostAliasVar[5]; }
    assert !Assigns(env[1], HostAliasVar) by { assert env[1][5] != HostAliasVar[5]; }
    assert Assigns(env[2], HostAliasVar) && (env[2])[|HostAliasVar| + 1..] == alias;
    assert EnvValue(env[2..], HostAliasVar) == Some(alias);
    assert EnvValue(env[1..], HostAliasVar) == EnvValue(env[2..], HostAliasVar);
  }
}
