/** The driver block of the setup script (internal/templates/templates.go): it looks the boot
    interface up in sysfs of the running host and adds kernel modules to the list for the image. */
module NicDrivers {
  import opened Text
  import opened NetDetect
  import opened Topology

  /** sysfs of the running host: bonding/slaves and brif/ (None when not there), the devices
      behind lower_*, and the driver of a device (empty when it has none). */
  datatype Sysfs = Sysfs(
    slaves: string -> Option<seq<string>>,
    ports: string -> Option<seq<string>>,
    lower: string -> seq<string>,
    driver: string -> string)

  ghost function DriversOf(fs: Sysfs, names: seq<string>): iset<string> {
    iset i | 0 <= i < |names| :: fs.driver(names[i])
  }

  /** What one device below a VLAN asks for. */
  ghost function WantedBelow(fs: Sysfs, name: string): iset<string> {
    match fs.slaves(name)
    case Some(slaves) => iset{"bonding"} + DriversOf(fs, slaves)
    case None => iset{fs.driver(name)}
  }

  /** The modules the block asks for; the empty name stands for a device without a driver. */
  ghost predicate Wanted(fs: Sysfs, nic: string, m: string) {
    m != ""
    && match (fs.slaves(nic), fs.ports(nic))
       case (Some(slaves), _) => m == "bonding" || m in DriversOf(fs, slaves)
       case (None, Some(ports)) => m == "bridge" || m in DriversOf(fs, ports)
       case (None, None) =>
         if fs.lower(nic) != [] then
           m == "8021q"
           || exists i ::
                0 <= i < |fs.lower(nic)| && fs.lower(nic)[i] != "" && m in WantedBelow(fs, fs.lower(nic)[i])
         else m == fs.driver(nic)
  }

  /** The list has grown at its end by modules it did not have, each once, and these are the
      wanted ones. */
  ghost predicate Grown(before: seq<string>, mods: seq<string>, wanted: iset<string>) {
    && before <= mods
    && (forall i, j :: |before| <= j < |mods| && 0 <= i < j ==> mods[i] != mods[j])
    && (forall m :: m in mods <==> m in before || (m in wanted && m != ""))
  }

  class ModuleList {
    var mods: seq<string>

    /** _add_mod. */
    method AddMod(m: string, ghost before: seq<string>, ghost wanted: iset<string>)
      requires Grown(before, mods, wanted)
      modifies this
      ensures Grown(before, mods, wanted + iset{m})
    {
      if m == "" {
        return;
      }
      if m !in mods {
        ghost var was := mods;
        mods := mods + [m];
        assert forall x :: x in mods <==> x in was || x == m;
      }
    }

    method AddDrivers(fs: Sysfs, names: seq<string>, ghost before: seq<string>, ghost wanted: iset<string>)
      requires Grown(before, mods, wanted)
      modifies this
      ensures Grown(before, mods, wanted + DriversOf(fs, names))
    {
      assert wanted + DriversOf(fs, names[..0]) == wanted;
      for i := 0 to |names|
        invariant Grown(before, mods, wanted + DriversOf(fs, names[..i]))
      {
        ghost var all := wanted + DriversOf(fs, names[..i]);
        AddMod(fs.driver(names[i]), before, all);
        DriversSnoc(fs, names, i);
        assert all + iset{fs.driver(names[i])} == wanted + DriversOf(fs, names[..i + 1]);
      }
      assert names[..|names|] == names;
    }

    method AddBelow(fs: Sysfs, name: string, ghost before: seq<string>, ghost wanted: iset<string>)
      requires Grown(before, mods, wanted)
      modifies this
      ensures Grown(before, mods, wanted + WantedBelow(fs, name))
    {
      var slaves := fs.slaves(name);
      if slaves.Some? {
        AddMod("bonding", before, wanted);
        AddDrivers(fs, slaves.value, before, wanted + iset{"bonding"});
        assert wanted + iset{"bonding"} + DriversOf(fs, slaves.value)
            == wanted + WantedBelow(fs, name);
      } else {
        AddMod(fs.driver(name), before, wanted);
        assert wanted + iset{fs.driver(name)} == wanted + WantedBelow(fs, name);
      }
    }

    ghost function Below(fs: Sysfs, names: seq<string>): iset<string> {
      iset m, i | 0 <= i < |names| && names[i] != "" && m in WantedBelow(fs, names[i]) :: m
    }

    method AddAllBelow(fs: Sysfs, names: seq<string>, ghost before: seq<string>, ghost wanted: iset<string>)
      requires Grown(before, mods, wanted)
      modifies this
      ensures Grown(before, mods, wanted + Below(fs, names))
    {
      assert wanted + Below(fs, names[..0]) == wanted;
      for i := 0 to |names|
        invariant Grown(before, mods, wanted + Below(fs, names[..i]))
      {
        BelowSnoc(fs, names, i);
        if names[i] != "" {
          AddBelow(fs, names[i], before, wanted + Below(fs, names[..i]));
          assert wanted + Below(fs, names[..i]) + WantedBelow(fs, names[i]) == wanted + Below(fs, names[..i + 1]);
        }
      }
      assert names[..|names|] == names;
    }

    lemma BelowSnoc(fs: Sysfs, names: seq<string>, i: nat)
      requires i < |names|
      ensures Below(fs, names[..i + 1]) ==
              if names[i] == "" then Below(fs, names[..i])
              else Below(fs, names[..i]) + WantedBelow(fs, names[i])
    {
      var p, q := names[..i], names[..i + 1];
      assert forall j :: 0 <= j < i ==> q[j] == p[j];
      forall m ensures m in Below(fs, q) <==> m in Below(fs, p) || (names[i] != "" && m in WantedBelow(fs, names[i])) {
        if m in Below(fs, p) {
          var j :| 0 <= j < |p| && p[j] != "" && m in WantedBelow(fs, p[j]);
          assert q[j] == p[j];
        }
        if names[i] != "" && m in WantedBelow(fs, names[i]) {
          assert q[i] == names[i];
        }
        if m in Below(fs, q) {
          var j :| 0 <= j < |q| && q[j] != "" && m in WantedBelow(fs, q[j]);
          assert j < i ==> q[j] == p[j];
        }
      }
    }

    /** The whole block. */
    method AddModules(fs: Sysfs, nic: string)
      modifies this
      ensures Grown(old(mods), mods, iset m | Wanted(fs, nic, m))
    {
      ghost var before := mods;
      var slaves, ports := fs.slaves(nic), fs.ports(nic);
      if slaves.Some? {
        AddMod("bonding", before, iset{});
        AddDrivers(fs, slaves.value, before, iset{} + iset{"bonding"});
      } else if ports.Some? {
        AddMod("bridge", before, iset{});
        AddDrivers(fs, ports.value, before, iset{} + iset{"bridge"});
      } else if fs.lower(nic) != [] {
        AddMod("8021q", before, iset{});
        AddAllBelow(fs, fs.lower(nic), before, iset{} + iset{"8021q"});
      } else {
        AddMod(fs.driver(nic), before, iset{});
      }
    }
  }

  lemma DriversSnoc(fs: Sysfs, names: seq<string>, i: nat)
    requires i < |names|
    ensures DriversOf(fs, names[..i + 1]) == DriversOf(fs, names[..i]) + iset{fs.driver(names[i])}
  {
    var p, q := names[..i], names[..i + 1];
    assert forall j :: 0 <= j < i ==> q[j] == p[j];
    forall m | m in DriversOf(fs, p) ensures m in DriversOf(fs, q) {
      var j :| 0 <= j < |p| && m == fs.driver(p[j]);
      assert m == fs.driver(q[j]);
    }
    assert fs.driver(q[i]) in DriversOf(fs, q);
  }

  // ----- the image has what the boot script needs

  /** sysfs shows one device as Linux does. */
  ghost predicate Shows1(fs: Sysfs, d: Device) {
    && (fs.slaves(d.name) == if d.Bond? then Some(Names(d.slaves)) else None)
    && (fs.ports(d.name) == if d.Bridge? then Some(Names(d.ports)) else None)
    && (d.Nic? ==> fs.lower(d.name) == [])
    && (d.Vlan? ==> fs.lower(d.name) == [d.parent.name])
  }

  ghost predicate Shows(fs: Sysfs, d: Device) {
    forall x :: Within(x, d) ==> Shows1(fs, x)
  }

  /** For a supported device the block asks for the driver of the NIC that the boot script and
      the ip= parameter use, and for VLAN support when the script makes a VLAN. */
  lemma BootModulesWanted(h: Host, fs: Sysfs, d: Device)
    requires Describes(h, d) && Shows(fs, d) && WellFormed(d) && Supported(d)
    ensures var low := Lower(d.name, ShapeOf(h, d.name));
            && (fs.driver(low.grubIface) != "" ==> Wanted(fs, low.netIface, fs.driver(low.grubIface)))
            && (low.vlanPhysdev != "" ==> Wanted(fs, low.netIface, "8021q"))
  {
    ShapeOfDevice(h, d);
    GrubDeviceWithin(d);
    var nic := GrubDevice(d);
    assert Shows1(fs, d) && Shows1(fs, nic);
    assert KernelName(nic.name);
    if d.Vlan? {
      ParentWithin(d);
      assert Shows1(fs, d.parent) && KernelName(d.parent.name);
      assert fs.lower(d.name)[0] == d.parent.name;
      if d.parent.Bond? {
        assert Names(d.parent.slaves)[0] == nic.name;
        assert fs.driver(nic.name) in DriversOf(fs, Names(d.parent.slaves));
      }
      assert fs.driver(nic.name) in WantedBelow(fs, d.parent.name);
    }
  }
}
