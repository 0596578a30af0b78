/** Plugins and the registry that loads, looks up, switches and unloads
    them. The `on_load` and `on_unload` hooks belong to concrete plugins
    outside this model; the registry records each call it makes to them. */
module Plugins {
  import opened Common
  import opened Models

  /** A plugin: its name (the class name unless the class sets another), a
      version, a description, an author and whether it is switched on. */
  class Plugin {
    var name: string
    var version: string
    var description: string
    var author: string
    var enabled: bool

    /** A new plugin is named after its class, has version 1.0.0, no
        description or author, and is enabled. */
    constructor (className: string)
      ensures name == className && version == "1.0.0"
      ensures description == "" && author == "" && enabled
    {
      name, version, description, author, enabled := className, "1.0.0", "", "", true;
    }

    /** `obj()` for a plugin class: the instance has exactly the fields the
        class's constructor leaves. */
    constructor Instantiate(cls: PluginClass)
      ensures name == cls.name && version == cls.version && description == cls.description
      ensures author == cls.author && enabled == cls.enabled
    {
      name, version, description, author, enabled := cls.name, cls.version, cls.description, cls.author, cls.enabled;
    }

    /** The plugin's fields as a value. */
    function State(): PluginClass
      reads this
    {
      PluginClass(name, version, description, author, enabled)
    }

    /** `get_info`: the five public fields as a dictionary. */
    function GetInfo(): (info: PyDict)
      reads this
      ensures info.Keys == {"name", "version", "description", "author", "enabled"}
      ensures info["enabled"] == Bool(enabled) && info["name"] == Str(name)
    {
      map["name" := Str(name), "version" := Str(version), "description" := Str(description),
          "author" := Str(author), "enabled" := Bool(enabled)]
    }

    /** `enable`: switched on; nothing else changes. */
    method Enable()
      modifies this
      ensures enabled
      ensures name == old(name) && version == old(version)
      ensures description == old(description) && author == old(author)
    {
      enabled := true;
    }

    /** `disable`: switched off; nothing else changes. */
    method Disable()
      modifies this
      ensures !enabled
      ensures name == old(name) && version == old(version)
      ensures description == old(description) && author == old(author)
    {
      enabled := false;
    }
  }

  /** A call the registry made to a plugin's hook. */
  datatype HookCall = OnLoad(plugin: string) | OnUnload(plugin: string)

  /** A plugin class, as the fields an instance has once its constructor
      has run: a subclass may override any field the base constructor sets
      (the watermark example sets its description and author). */
  datatype PluginClass = PluginClass(name: string, version: string, description: string, author: string, enabled: bool)

  /** A plugin file: its stem and the plugin classes it defines, or `None`
      when importing it raises. */
  datatype PluginFile = PluginFile(stem: string, classes: Option<seq<PluginClass>>)

  /** Files whose stem starts with `_` are never loaded. */
  predicate Loadable(f: PluginFile) {
    |f.stem| == 0 || f.stem[0] != '_'
  }

  /** The classes one file contributes: none unless it is loadable and
      imports. */
  function Contribution(f: PluginFile): seq<PluginClass> {
    if Loadable(f) && f.classes.Some? then f.classes.value else []
  }

  /** The classes the files contribute, in loading order: every class of a
      loadable file that imports, and nothing else. */
  function LoadedClasses(files: seq<PluginFile>): (cs: seq<PluginClass>)
    ensures forall f :: f in files && Loadable(f) && f.classes.Some? ==> forall c :: c in f.classes.value ==> c in cs
    ensures forall c :: c in cs ==> exists f :: f in files && Loadable(f) && f.classes.Some? && c in f.classes.value
  {
    if |files| == 0 then []
    else
      var f := files[|files| - 1];
      var init := LoadedClasses(files[..|files| - 1]);
      assert forall g :: g in files ==> g in files[..|files| - 1] || g == f;
      init + Contribution(f)
  }

  /** The names the classes' instances register under, in order. */
  function NamesOf(cs: seq<PluginClass>): (names: seq<string>)
    ensures |names| == |cs|
    ensures forall i :: 0 <= i < |cs| ==> names[i] == cs[i].name
  {
    seq(|cs|, i requires 0 <= i < |cs| => cs[i].name)
  }

  lemma NamesOfAppend(a: seq<PluginClass>, b: seq<PluginClass>)
    ensures NamesOf(a + b) == NamesOf(a) + NamesOf(b)
  {
  }

  /** A single class: its name, its `on_load` call, and it wins. */
  lemma Single(cs: seq<PluginClass>, j: nat)
    requires j < |cs|
    ensures cs[..j + 1] == cs[..j] + [cs[j]]
    ensures NamesOf([cs[j]]) == [cs[j].name]
    ensures Members([cs[j].name]) == {cs[j].name}
    ensures Loads([cs[j].name]) == [OnLoad(cs[j].name)]
    ensures Latest([cs[j]], cs[j].name) == cs[j]
  {
    assert cs[..j + 1] == cs[..j] + [cs[j]];
  }

  /** The registry names the files load, in loading order. */
  function LoadedNames(files: seq<PluginFile>): seq<string> {
    NamesOf(LoadedClasses(files))
  }

  lemma LoadedStep(files: seq<PluginFile>, k: nat)
    requires k < |files|
    ensures LoadedClasses(files[..k + 1]) == LoadedClasses(files[..k]) + Contribution(files[k])
    ensures LoadedNames(files[..k + 1]) == LoadedNames(files[..k]) + NamesOf(Contribution(files[k]))
  {
    assert files[..k + 1][..k] == files[..k];
    NamesOfAppend(LoadedClasses(files[..k]), Contribution(files[k]));
  }

  /** An underscore file adds nothing wherever it is listed. */
  lemma UnderscoreSkipped(files: seq<PluginFile>, f: PluginFile)
    requires |f.stem| >= 1 && f.stem[0] == '_'
    ensures LoadedClasses(files + [f]) == LoadedClasses(files)
  {
    assert (files + [f])[..|files|] == files;
  }

  /** Where the class that wins under name `n` sits: the last class
      registered under it, since a later registration replaces an earlier
      one. */
  function LastIndex(cs: seq<PluginClass>, n: string): (i: nat)
    requires n in NamesOf(cs)
    ensures i < |cs| && cs[i].name == n
    ensures forall j :: i < j < |cs| ==> cs[j].name != n
  {
    var init := cs[..|cs| - 1];
    if cs[|cs| - 1].name == n then |cs| - 1
    else
      assert n in NamesOf(init) by {
        var k :| 0 <= k < |cs| && NamesOf(cs)[k] == n;
        assert NamesOf(init)[k] == n;
      }
      LastIndex(init, n)
  }

  /** The class whose instance ends up registered under `n`. */
  function Latest(cs: seq<PluginClass>, n: string): PluginClass
    requires n in NamesOf(cs)
  {
    cs[LastIndex(cs, n)]
  }

  /** The winner over two runs of classes: the later run's when it has the
      name at all. */
  lemma LatestAppend(a: seq<PluginClass>, b: seq<PluginClass>, n: string)
    requires n in NamesOf(a + b)
    ensures n in NamesOf(b) ==> Latest(a + b, n) == Latest(b, n)
    ensures n !in NamesOf(b) ==> n in NamesOf(a) && Latest(a + b, n) == Latest(a, n)
  {
    NamesOfAppend(a, b);
    var i := LastIndex(a + b, n);
    if n in NamesOf(b) {
      var k := LastIndex(b, n);
      assert (a + b)[|a| + k] == b[k];
    } else {
      var k := LastIndex(a, n);
      assert (a + b)[k] == a[k];
    }
  }

  /** One more run of classes `b` after `a`: the keys, the key order, the
      `on_load` calls and the winning classes of `a + b`. */
  lemma Accumulate(keys0: set<string>, names0: seq<string>, hooks0: seq<HookCall>, a: seq<PluginClass>, b: seq<PluginClass>)
    ensures keys0 + Members(NamesOf(a)) + Members(NamesOf(b)) == keys0 + Members(NamesOf(a + b))
    ensures AppendNew(AppendNew(names0, NamesOf(a)), NamesOf(b)) == AppendNew(names0, NamesOf(a + b))
    ensures hooks0 + Loads(NamesOf(a)) + Loads(NamesOf(b)) == hooks0 + Loads(NamesOf(a + b))
    ensures forall n :: n in NamesOf(a + b) <==> n in NamesOf(a) || n in NamesOf(b)
    ensures forall n :: n in NamesOf(b) ==> Latest(a + b, n) == Latest(b, n)
    ensures forall n :: n in NamesOf(a) && n !in NamesOf(b) ==> Latest(a + b, n) == Latest(a, n)
  {
    NamesOfAppend(a, b);
    AccumulateLists(keys0, names0, hooks0, NamesOf(a), NamesOf(b));
    AccumulateLatest(a, b);
  }

  lemma AccumulateLists(keys0: set<string>, names0: seq<string>, hooks0: seq<HookCall>, a: seq<string>, b: seq<string>)
    ensures keys0 + Members(a) + Members(b) == keys0 + Members(a + b)
    ensures AppendNew(AppendNew(names0, a), b) == AppendNew(names0, a + b)
    ensures hooks0 + Loads(a) + Loads(b) == hooks0 + Loads(a + b)
  {
    MembersAppend(a, b);
    LoadsAppend(a, b);
    AppendNewAppend(names0, a, b);
  }

  lemma AccumulateLatest(a: seq<PluginClass>, b: seq<PluginClass>)
    ensures forall n :: n in NamesOf(b) ==> n in NamesOf(a + b) && Latest(a + b, n) == Latest(b, n)
    ensures forall n :: n in NamesOf(a) && n !in NamesOf(b) ==> n in NamesOf(a + b) && Latest(a + b, n) == Latest(a, n)
  {
    NamesOfAppend(a, b);
    forall n | n in NamesOf(a + b) {
      LatestAppend(a, b, n);
    }
  }

  /** The key order after registering each name in turn: a name already
      present keeps its place, a new one goes to the end. */
  function AppendNew(s: seq<string>, xs: seq<string>): (r: seq<string>)
    ensures |s| <= |r| && r[..|s|] == s
    ensures forall y :: y in r <==> y in s || y in xs
    ensures NoDuplicates(s) ==> NoDuplicates(r)
  {
    if |xs| == 0 then s
    else
      var t := AppendNew(s, xs[..|xs| - 1]);
      var x := xs[|xs| - 1];
      assert forall y :: y in xs <==> y in xs[..|xs| - 1] || y == x;
      if x in t then t else t + [x]
  }

  /** Registering two runs of names is registering their concatenation. */
  lemma {:induction false} AppendNewAppend(s: seq<string>, a: seq<string>, b: seq<string>)
    ensures AppendNew(s, a + b) == AppendNew(AppendNew(s, a), b)
  {
    if |b| > 0 {
      assert (a + b)[..|a + b| - 1] == a + b[..|b| - 1];
      AppendNewAppend(s, a, b[..|b| - 1]);
    } else {
      assert a + b == a;
    }
  }

  /** `s` without `x`, the others in their order. */
  function Without(s: seq<string>, x: string): (r: seq<string>)
    requires NoDuplicates(s)
    ensures NoDuplicates(r)
    ensures forall y :: y in r <==> y in s && y != x
    ensures x in s ==> |r| == |s| - 1
    ensures x !in s ==> r == s
  {
    if |s| == 0 then []
    else if s[0] == x then s[1..]
    else
      var rest := Without(s[1..], x);
      assert s[0] !in s[1..];
      assert x !in s ==> [s[0]] + s[1..] == s;
      [s[0]] + rest
  }

  /** The registry: `plugins` maps names to plugins, `names` is its key
      order (the insertion order of the dictionary), and `hooks` the hook
      calls made so far. */
  class PluginManager {
    var names: seq<string>
    var plugins: map<string, Plugin>
    var hooks: seq<HookCall>

    /** The key order lists each registered name once, and every plugin
        is registered under its own name. */
    ghost predicate Valid()
      reads this, plugins.Values
    {
      && NoDuplicates(names)
      && (forall n :: n in plugins <==> n in names)
      && (forall n :: n in plugins ==> plugins[n].name == n)
    }

    constructor ()
      ensures Valid()
      ensures names == [] && plugins == map[] && hooks == []
    {
      names, plugins, hooks := [], map[], [];
    }

    /** What `_load_plugin_file` does with one plugin: its `on_load`, then
        registration under its name, replacing a plugin of the same name
        (which keeps its place in the key order). */
    method Register(p: Plugin)
      requires Valid()
      modifies this
      ensures Valid()
      ensures plugins == old(plugins)[p.name := p]
      ensures names == if p.name in old(plugins) then old(names) else old(names) + [p.name]
      ensures hooks == old(hooks) + [OnLoad(p.name)]
    {
      hooks := hooks + [OnLoad(p.name)];
      if p.name !in plugins {
        names := names + [p.name];
      }
      plugins := plugins[p.name := p];
    }

    /** `get_plugin`: the plugin of that name, `None` for an unknown one. */
    function GetPlugin(name: string): (r: Option<Plugin>)
      reads this
      ensures r.None? <==> name !in plugins
      ensures r.Some? ==> r.value == plugins[name]
    {
      if name in plugins then Some(plugins[name]) else None
    }

    /** `list_plugins`: one information record per registered plugin, in
        key order. */
    function ListPlugins(): (infos: seq<PyDict>)
      requires Valid()
      reads this, plugins.Values
      ensures |infos| == |names| == |plugins|
      ensures forall i :: 0 <= i < |names| ==> infos[i] == plugins[names[i]].GetInfo()
    {
      KeyCount(names, plugins.Keys);
      seq(|names|, i requires 0 <= i < |names| && names[i] in plugins reads this, plugins.Values =>
        plugins[names[i]].GetInfo())
    }

    /** `enable_plugin`: switches the named plugin on; an unknown name does
        nothing. */
    method EnablePlugin(name: string)
      requires Valid()
      modifies if name in plugins then {plugins[name]} else {}
      ensures Valid()
      ensures name in plugins ==> plugins[name].enabled
      ensures name in plugins ==> plugins[name].version == old(plugins[name].version)
      ensures name in plugins ==> plugins[name].description == old(plugins[name].description)
      ensures name in plugins ==> plugins[name].author == old(plugins[name].author)
      ensures forall n :: n in plugins && n != name ==> plugins[n].enabled == old(plugins[n].enabled)
    {
      var plugin := GetPlugin(name);
      if plugin.Some? {
        plugin.value.Enable();
      }
    }

    /** `disable_plugin`: switches the named plugin off; an unknown name
        does nothing. */
    method DisablePlugin(name: string)
      requires Valid()
      modifies if name in plugins then {plugins[name]} else {}
      ensures Valid()
      ensures name in plugins ==> !plugins[name].enabled
      ensures name in plugins ==> plugins[name].version == old(plugins[name].version)
      ensures name in plugins ==> plugins[name].description == old(plugins[name].description)
      ensures name in plugins ==> plugins[name].author == old(plugins[name].author)
      ensures forall n :: n in plugins && n != name ==> plugins[n].enabled == old(plugins[n].enabled)
    {
      var plugin := GetPlugin(name);
      if plugin.Some? {
        plugin.value.Disable();
      }
    }

    /** `unload_plugin`: calls the plugin's `on_unload` and removes exactly
        that entry; an unknown name does nothing. */
    method UnloadPlugin(name: string)
      requires Valid()
      modifies this
      ensures Valid()
      ensures name in old(plugins) ==>
        && plugins == old(plugins) - {name}
        && names == Without(old(names), name)
        && hooks == old(hooks) + [OnUnload(name)]
      ensures name !in old(plugins) ==> plugins == old(plugins) && names == old(names) && hooks == old(hooks)
    {
      var plugin := GetPlugin(name);
      if plugin.Some? {
        hooks := hooks + [OnUnload(name)];
        names := Without(names, name);
        plugins := plugins - {name};
      }
    }

    /** `unload_all`: unloads every plugin in key order, leaving the
        registry empty. */
    method UnloadAll()
      requires Valid()
      modifies this
      ensures Valid()
      ensures plugins == map[] && names == []
      ensures hooks == old(hooks) + Unloads(old(names))
    {
      var keys := names;
      var i := 0;
      while i < |keys|
        invariant 0 <= i <= |keys|
        invariant Valid()
        invariant names == keys[i..]
        invariant hooks == old(hooks) + Unloads(keys[..i])
      {
        assert names[0] == keys[i];
        WithoutFirst(names);
        UnloadPlugin(keys[i]);
        assert keys[..i + 1] == keys[..i] + [keys[i]];
        i := i + 1;
      }
      assert keys[..i] == keys;
      KeyCount(names, plugins.Keys);
    }

    /** `load_plugins`: nothing when the directory is missing; otherwise
        every plugin class of every loadable file that imports, in order.
        Each loaded name holds a new instance of the last class registered
        under it; every other plugin stays as it was. */
    method LoadPlugins(dirExists: bool, files: seq<PluginFile>)
      requires Valid()
      modifies this
      ensures Valid()
      ensures !dirExists ==> plugins == old(plugins) && names == old(names) && hooks == old(hooks)
      ensures dirExists ==> plugins.Keys == old(plugins).Keys + Members(LoadedNames(files))
      ensures dirExists ==> names == AppendNew(old(names), LoadedNames(files))
      ensures dirExists ==> hooks == old(hooks) + Loads(LoadedNames(files))
      ensures dirExists ==> forall n :: n in old(plugins) && n !in LoadedNames(files) ==> plugins[n] == old(plugins[n])
      ensures dirExists ==> forall n :: n in LoadedNames(files) ==>
        fresh(plugins[n]) && plugins[n].State() == Latest(LoadedClasses(files), n)
    {
      if !dirExists {
        return;
      }
      var k := 0;
      while k < |files|
        invariant 0 <= k <= |files|
        invariant Valid()
        invariant plugins.Keys == old(plugins).Keys + Members(LoadedNames(files[..k]))
        invariant names == AppendNew(old(names), LoadedNames(files[..k]))
        invariant hooks == old(hooks) + Loads(LoadedNames(files[..k]))
        invariant forall n :: n in old(plugins) && n !in LoadedNames(files[..k]) ==> plugins[n] == old(plugins[n])
        invariant forall n :: n in LoadedNames(files[..k]) ==>
          fresh(plugins[n]) && plugins[n].State() == Latest(LoadedClasses(files[..k]), n)
      {
        LoadEntry(files[k]);
        LoadedStep(files, k);
        Accumulate(old(plugins).Keys, old(names), old(hooks), LoadedClasses(files[..k]), Contribution(files[k]));
        k := k + 1;
      }
      assert files[..k] == files;
    }

    /** One file of `load_plugins`: skipped when its stem starts with `_`
        or its import raises, loaded otherwise. */
    method LoadEntry(f: PluginFile)
      requires Valid()
      modifies this
      ensures Valid()
      ensures plugins.Keys == old(plugins).Keys + Members(NamesOf(Contribution(f)))
      ensures names == AppendNew(old(names), NamesOf(Contribution(f)))
      ensures hooks == old(hooks) + Loads(NamesOf(Contribution(f)))
      ensures forall n :: n in old(plugins) && n !in NamesOf(Contribution(f)) ==> plugins[n] == old(plugins[n])
      ensures forall n :: n in NamesOf(Contribution(f)) ==>
        fresh(plugins[n]) && plugins[n].State() == Latest(Contribution(f), n)
    {
      if Loadable(f) && f.classes.Some? {
        LoadFile(f.classes.value);
      }
    }

    /** `_load_plugin_file` after a successful import: each class in turn
        is loaded, so the last class of a name wins. */
    method LoadFile(classes: seq<PluginClass>)
      requires Valid()
      modifies this
      ensures Valid()
      ensures plugins.Keys == old(plugins).Keys + Members(NamesOf(classes))
      ensures names == AppendNew(old(names), NamesOf(classes))
      ensures hooks == old(hooks) + Loads(NamesOf(classes))
      ensures forall n :: n in old(plugins) && n !in NamesOf(classes) ==> plugins[n] == old(plugins[n])
      ensures forall n :: n in NamesOf(classes) ==> fresh(plugins[n]) && plugins[n].State() == Latest(classes, n)
    {
      var j := 0;
      while j < |classes|
        invariant 0 <= j <= |classes|
        invariant Valid()
        invariant plugins.Keys == old(plugins).Keys + Members(NamesOf(classes[..j]))
        invariant names == AppendNew(old(names), NamesOf(classes[..j]))
        invariant hooks == old(hooks) + Loads(NamesOf(classes[..j]))
        invariant forall n :: n in old(plugins) && n !in NamesOf(classes[..j]) ==> plugins[n] == old(plugins[n])
        invariant forall n :: n in NamesOf(classes[..j]) ==> fresh(plugins[n]) && plugins[n].State() == Latest(classes[..j], n)
      {
        ghost var before := plugins;
        LoadClass(classes[j]);
        Single(classes, j);
        Accumulate(old(plugins).Keys, old(names), old(hooks), classes[..j], [classes[j]]);
        forall n | n in NamesOf(classes[..j + 1])
          ensures fresh(plugins[n]) && plugins[n].State() == Latest(classes[..j + 1], n)
        {
          if n != classes[j].name {
            assert plugins[n] == before[n];
          }
        }
        j := j + 1;
      }
      assert classes[..j] == classes;
    }

    /** One class in `_load_plugin_file`: instantiated, its `on_load`
        called, and registered under the instance's name. */
    method LoadClass(cls: PluginClass)
      requires Valid()
      modifies this
      ensures Valid()
      ensures plugins.Keys == old(plugins).Keys + {cls.name}
      ensures names == AppendNew(old(names), [cls.name])
      ensures hooks == old(hooks) + [OnLoad(cls.name)]
      ensures forall n :: n in old(plugins) && n != cls.name ==> plugins[n] == old(plugins[n])
      ensures fresh(plugins[cls.name]) && plugins[cls.name].State() == cls
    {
      var p := new Plugin.Instantiate(cls);
      Register(p);
    }
  }

  /** The `on_unload` calls for the names, in order. */
  function Unloads(names: seq<string>): (calls: seq<HookCall>)
    ensures |calls| == |names|
    ensures forall i :: 0 <= i < |names| ==> calls[i] == OnUnload(names[i])
  {
    seq(|names|, i requires 0 <= i < |names| => OnUnload(names[i]))
  }

  /** The `on_load` calls for the names, in order. */
  function Loads(names: seq<string>): (calls: seq<HookCall>)
    ensures |calls| == |names|
    ensures forall i :: 0 <= i < |names| ==> calls[i] == OnLoad(names[i])
  {
    seq(|names|, i requires 0 <= i < |names| => OnLoad(names[i]))
  }

  /** The names a list holds. */
  function Members(names: seq<string>): (r: set<string>)
    ensures forall c :: c in r <==> c in names
  {
    set c | c in names
  }

  lemma MembersAppend(a: seq<string>, b: seq<string>)
    ensures Members(a + b) == Members(a) + Members(b)
  {
  }

  lemma LoadsAppend(a: seq<string>, b: seq<string>)
    ensures Loads(a + b) == Loads(a) + Loads(b)
  {
  }

  /** Removing the first name of a list without duplicates drops it. */
  lemma WithoutFirst(s: seq<string>)
    requires NoDuplicates(s) && |s| >= 1
    ensures Without(s, s[0]) == s[1..]
  {
  }

  /** A list without duplicates is as long as the set it lists. */
  lemma {:induction false} KeyCount(names: seq<string>, keys: set<string>)
    requires NoDuplicates(names)
    requires forall n :: n in keys <==> n in names
    ensures |names| == |keys|
  {
    if |names| > 0 {
      var last := names[|names| - 1];
      var init := names[..|names| - 1];
      forall n | n in init ensures n in keys - {last} {
        var i :| 0 <= i < |init| && init[i] == n;
        assert names[i] == n;
      }
      forall n | n in keys - {last} ensures n in init {
        var i :| 0 <= i < |names| && names[i] == n;
        assert i < |init|;
        assert init[i] == n;
      }
      KeyCount(init, keys - {last});
    }
  }
}
