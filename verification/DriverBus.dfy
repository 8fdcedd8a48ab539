// aalbus_init_driver and aalbus_release_driver, step by step on the structures
// they fill in; k stands for what the kernel has registered.
module DriverBus {
  import opened Options
  import S = DriverSpec

  // struct aal_driver
  class AalDriver {
    const id: nat
    var name: Option<nat>
    var m_major: nat
    var region: bool        // AAL_DRIVER_FLAG_CHRDEV_REGION_OBTAINED
    var registered: bool    // AAL_DRIVER_FLAG_IS_REGISTERED
    var chrdev: bool        // AAL_DRIVER_FLAG_CHRDEV_ADDED

    constructor (id: nat, name: Option<nat>)
      ensures Value() == S.Driver(id, name, 0, false, false, false)
    {
      this.id, this.name, m_major, region, registered, chrdev := id, name, 0, false, false, false;
    }

    ghost function Value(): S.Driver
      reads this
    {
      S.Driver(id, name, m_major, region, registered, chrdev)
    }
  }

  // struct aal_classdevice
  class AalClassDevice {
    const id: nat
    var name: Option<nat>
    var devtype: nat
    var registered: bool    // AAL_CLASSDEV_IS_REGISTERED

    constructor (id: nat)
      ensures Value() == S.ClassDevice(id, None, 0, false)
    {
      this.id, name, devtype, registered := id, None, 0, false;
    }

    ghost function Value(): S.ClassDevice
      reads this
    {
      S.ClassDevice(id, name, devtype, registered)
    }
  }

  class Bus {
    var k: S.Kernel

    constructor ()
      ensures k == S.Kernel({}, {}, {}, {})
    {
      k := S.Kernel({}, {}, {}, {});
    }

    ghost function World(pdrv: AalDriver, pclassdev: AalClassDevice?): S.World
      reads this, pdrv, pclassdev
    {
      S.World(k, pdrv.Value(), if pclassdev == null then None else Some(pclassdev.Value()))
    }

    // register_chrdev_region or alloc_chrdev_region
    method ObtainRegion(pdrv: AalDriver, ghost pclassdev: AalClassDevice?, a: S.Args) returns (res: int, devtype: nat)
      modifies this, pdrv
      ensures (World(pdrv, pclassdev), res) == S.ObtainRegion(old(World(pdrv, pclassdev)), a)
      ensures res == 0 ==> devtype == S.DevType(a)
    {
      res, devtype := 0, 0;
      if a.devname.Some? {
        if a.devmajor != 0 {
          devtype := a.devmajor;
          res := a.onRegion;
          if res < 0 {
            return;
          }
          k := k.(regions := k.regions + {a.devmajor});
        } else {
          res := a.onRegion;
          if res < 0 {
            return;
          }
          devtype := a.dyn;
          k := k.(regions := k.regions + {a.dyn});
          pdrv.m_major := a.dyn;
        }
        pdrv.region := true;
        res := 0;
      }
    }

    // aalbus_register_driver
    method RegisterDriver(pdrv: AalDriver, ghost pclassdev: AalClassDevice?, a: S.Args) returns (res: int)
      modifies this, pdrv
      ensures (World(pdrv, pclassdev), res) == S.RegisterDriver(old(World(pdrv, pclassdev)), a)
    {
      if pdrv.registered {
        return S.EINVAL;
      }
      if a.onDriver < 0 {
        return a.onDriver;
      }
      k := k.(drivers := k.drivers + {pdrv.id});
      pdrv.registered := true;
      res := 0;
    }

    // aalbus_unregister_driver
    method UnregisterDriver(pdrv: AalDriver)
      modifies this, pdrv
      ensures k == if old(pdrv.registered) then old(k).(drivers := old(k).drivers - {pdrv.id}) else old(k)
      ensures pdrv.Value() == old(pdrv.Value()).(registered := false)
    {
      if pdrv.registered {
        k := k.(drivers := k.drivers - {pdrv.id});
        pdrv.registered := false;
      }
    }

    // cdev_init and cdev_add
    method AddChrdev(pdrv: AalDriver, ghost pclassdev: AalClassDevice?, a: S.Args) returns (res: int)
      modifies this, pdrv
      ensures (World(pdrv, pclassdev), res) == S.AddChrdev(old(World(pdrv, pclassdev)), a)
    {
      res := 0;
      if a.devname.Some? {
        res := a.onChrdev;
        if res != 0 {
          return;
        }
        k := k.(cdevs := k.cdevs + {pdrv.id});
        pdrv.chrdev := true;
      }
    }

    // aalbus_register_class_device, the name and number having been set
    method RegisterClassDevice(ghost pdrv: AalDriver, pclassdev: AalClassDevice?, a: S.Args, devtype: nat) returns (res: int)
      requires devtype == S.DevType(a)
      modifies this, pclassdev
      ensures (World(pdrv, pclassdev), res) == S.RegisterClass(old(World(pdrv, pclassdev)), a)
    {
      if pclassdev == null {
        return 0;
      }
      pclassdev.name := a.devname;
      pclassdev.devtype := devtype;
      if pclassdev.registered {
        return S.EINVAL;
      }
      if a.onClass < 0 {
        return a.onClass;
      }
      k := k.(classdevs := k.classdevs + {pclassdev.id});
      pclassdev.registered := true;
      res := 0;
    }

    // aalbus_unregister_class_device
    method UnregisterClassDevice(pclassdev: AalClassDevice)
      modifies this, pclassdev
      ensures k == if old(pclassdev.registered) then old(k).(classdevs := old(k).classdevs - {pclassdev.id}) else old(k)
      ensures pclassdev.Value() == old(pclassdev.Value()).(registered := false)
    {
      if pclassdev.registered {
        k := k.(classdevs := k.classdevs - {pclassdev.id});
        pclassdev.registered := false;
      }
    }

    // The last part of both: everything held is given back, in reverse order.
    method GiveBack(pdrv: AalDriver, pclassdev: AalClassDevice?, devtype: nat)
      modifies this, pdrv, pclassdev
      ensures World(pdrv, pclassdev) == S.GiveBack(old(World(pdrv, pclassdev)), devtype)
    {
      if pclassdev != null {
        if pclassdev.registered {
          UnregisterClassDevice(pclassdev);
        }
      }
      if pdrv.chrdev {
        k := k.(cdevs := k.cdevs - {pdrv.id});
        pdrv.chrdev := false;
      }
      if pdrv.registered {
        UnregisterDriver(pdrv);
      }
      if pdrv.region {
        k := k.(regions := k.regions - {devtype});
        pdrv.region := false;
      }
    }

    // aalbus_init_driver
    method InitDriver(pdrv: AalDriver, pclassdev: AalClassDevice?, a: S.Args) returns (res: int)
      requires S.Allowed(World(pdrv, pclassdev), a)
      modifies this, pdrv, pclassdev
      ensures (World(pdrv, pclassdev), res) == S.Init(old(World(pdrv, pclassdev)), a)
    {
      hide S.ObtainRegion, S.RegisterDriver, S.AddChrdev, S.RegisterClass, S.GiveBack, S.Allowed;
      if !a.owner {
        return S.EINVAL;
      }
      if pdrv.name.None? {
        if a.devname.None? {
          return S.EINVAL;
        }
        pdrv.name := a.devname;
      }
      if pclassdev != null && a.devname.None? {
        return S.EINVAL;
      }
      var devtype: nat;
      res, devtype := ObtainRegion(pdrv, pclassdev, a);
      if res < 0 {
        return;
      }
      RegionAnswer(old(World(pdrv, pclassdev)), a);
      res := RegisterDriver(pdrv, pclassdev, a);
      if res < 0 {
        GiveBack(pdrv, pclassdev, devtype);
        return;
      }
      res := AddChrdev(pdrv, pclassdev, a);
      if res != 0 {
        GiveBack(pdrv, pclassdev, devtype);
        return;
      }
      res := RegisterClassDevice(pdrv, pclassdev, a, devtype);
      if res < 0 {
        GiveBack(pdrv, pclassdev, devtype);
      }
    }

    lemma RegionAnswer(w: S.World, a: S.Args)
      ensures S.ObtainRegion(S.Named(w, a), a).1 <= 0
    {
    }

    // aalbus_release_driver
    method ReleaseDriver(pdrv: AalDriver, pclassdev: AalClassDevice?) returns (res: int)
      modifies this, pdrv, pclassdev
      ensures World(pdrv, pclassdev) == S.Release(old(World(pdrv, pclassdev))) && res == 0
    {
      GiveBack(pdrv, pclassdev, pdrv.m_major);
      res := 0;
    }
  }
}
