/** Which command names an app may run, must ask for, or may not run. */
module ShellPolicy {
  import opened Basics

  datatype ShellConfig = ShellConfig(allow: seq<string>, ask: seq<string>)

  /** The part of an app's manifest that shell requests consult. */
  datatype Manifest = Manifest(appId: string, shell: Option<ShellConfig>)

  datatype Decision = Allow | Ask | Deny

  /** One unlisted command denies the whole pipeline, else one command to ask for asks for it. */
  function Policy(manifest: Manifest, commands: seq<string>): Decision {
    match manifest.shell
    case None => Deny
    case Some(config) =>
      if exists c :: c in commands && c !in config.allow && c !in config.ask then Deny
      else if exists c :: c in commands && c !in config.allow then Ask
      else Allow
  }

  method DecideShellPolicy(manifest: Manifest, commands: seq<string>) returns (decision: Decision)
    ensures decision == Policy(manifest, commands)
  {
    if manifest.shell == None {
      return Deny;
    }
    var config := manifest.shell.value;
    var sawAsk := false;
    for i := 0 to |commands|
      invariant forall c :: c in commands[..i] ==> c in config.allow || c in config.ask
      invariant sawAsk <==> exists c :: c in commands[..i] && c !in config.allow
    {
      var command := commands[i];
      assert commands[..i + 1] == commands[..i] + [command];
      if command in config.allow {
        continue;
      }
      if command in config.ask {
        sawAsk := true;
        continue;
      }
      assert command in commands;
      return Deny;
    }
    assert commands[..|commands|] == commands;
    return if sawAsk then Ask else Allow;
  }

  // ------------------------------------------------------ what it comes to

  function Stricter(a: Decision, b: Decision): Decision {
    if a == Deny || b == Deny then Deny
    else if a == Ask || b == Ask then Ask
    else Allow
  }

  /** One command: allowed if it is on the allow list, to be asked for if it is only on the ask list, denied otherwise. */
  lemma PolicyOfOne(config: ShellConfig, appId: string, command: string)
    ensures var decision := Policy(Manifest(appId, Some(config)), [command]);
            && (decision == Allow <==> command in config.allow)
            && (decision == Ask <==> command in config.ask && command !in config.allow)
            && (decision == Deny <==> command !in config.allow && command !in config.ask)
  {
    assert command in [command];
  }

  /** A pipeline is decided part by part: the stricter decision counts. Without a shell section everything is denied. */
  lemma PolicyOfConcat(manifest: Manifest, a: seq<string>, b: seq<string>)
    ensures Policy(manifest, a + b) == Stricter(Policy(manifest, a), Policy(manifest, b))
    ensures Policy(manifest, []) == if manifest.shell == None then Deny else Allow
  {
    assert forall c :: c in a + b <==> c in a || c in b;
  }

  /** The decision told by the lists: who may run unasked, and who may ask. */
  lemma PolicyByLists(manifest: Manifest, commands: seq<string>)
    ensures Policy(manifest, commands) == Allow <==>
              manifest.shell.Some? && forall c :: c in commands ==> c in manifest.shell.value.allow
    ensures Policy(manifest, commands) == Ask <==>
              && manifest.shell.Some?
              && (forall c :: c in commands ==> c in manifest.shell.value.allow || c in manifest.shell.value.ask)
              && (exists c :: c in commands && c !in manifest.shell.value.allow)
  {
  }
}
