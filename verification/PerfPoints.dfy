/** The timed points of os/src/perf.rs: their names are fit for the snapshot format. */
module PerfPoints {
  import opened PerfText
  import opened PerfRoundTrip

  const PROFILE_POINT_COUNT: nat := 54

  /** `TIME_STATS`, by position. */
  function PointName(i: nat): string
    requires i < PROFILE_POINT_COUNT
  {
    if i == 0 then "syscall_dispatch"
    else if i == 1 then "sys_read"
    else if i == 2 then "sys_write"
    else if i == 3 then "vfs_lookup"
    else if i == 4 then "vfs_lookup_path_components"
    else if i == 5 then "vfs_lookup_visible_path"
    else if i == 6 then "vfs_lookup_dentry"
    else if i == 7 then "vfs_lookup_backend"
    else if i == 8 then "vfs_lookup_dentry_insert"
    else if i == 9 then "sys_newfstatat_read_path"
    else if i == 10 then "sys_newfstatat_access_check"
    else if i == 11 then "sys_newfstatat_resolve"
    else if i == 12 then "sys_newfstatat_writeback"
    else if i == 13 then "stat_path_resolve_at"
    else if i == 14 then "stat_path_static_path"
    else if i == 15 then "stat_path_vfs_stat"
    else if i == 16 then "stat_path_lookup"
    else if i == 17 then "stat_path_backend_stat"
    else if i == 18 then "stat_path_dirty_overlay"
    else if i == 19 then "ext4_stat_get_attr"
    else if i == 20 then "ext4_stat_inode_flags"
    else if i == 21 then "ext4_read"
    else if i == 22 then "page_fault"
    else if i == 23 then "scheduler_fetch"
    else if i == 24 then "vfs_read_backend"
    else if i == 25 then "vfs_read_all_backend"
    else if i == 26 then "vfs_read_coalesced_backend"
    else if i == 27 then "vfs_read_cache_fill"
    else if i == 28 then "vfs_seek_scan_read"
    else if i == 29 then "mmap_fault_read"
    else if i == 30 then "mmap_page_cache_fill"
    else if i == 31 then "page_fault_cow"
    else if i == 32 then "page_fault_lazy_framed"
    else if i == 33 then "page_fault_mmap_prepare"
    else if i == 34 then "page_fault_mmap_build_frame"
    else if i == 35 then "page_fault_mmap_install_frame"
    else if i == 36 then "page_fault_mmap_resolve_page_cache"
    else if i == 37 then "page_fault_mmap_install_page_cache"
    else if i == 38 then "frame_alloc_zeroed"
    else if i == 39 then "frame_zero_fill"
    else if i == 40 then "frame_alloc_uninit"
    else if i == 41 then "frame_alloc_page_table"
    else if i == 42 then "frame_alloc_map_area"
    else if i == 43 then "frame_alloc_lazy_framed"
    else if i == 44 then "frame_alloc_materialize_framed"
    else if i == 45 then "frame_alloc_mmap_private"
    else if i == 46 then "frame_alloc_shm"
    else if i == 47 then "frame_alloc_dma"
    else if i == 48 then "frame_alloc_mmap_page_cache"
    else if i == 49 then "frame_alloc_shared_anon"
    else if i == 50 then "frame_alloc_read_cache"
    else if i == 51 then "page_cache_load_wait"
    else if i == 52 then "mount_backend_contended_wait"
    else "mount_backend_hold"
  }

  function PointNames(): (names: seq<string>)
    ensures |names| == PROFILE_POINT_COUNT && forall i | 0 <= i < |names| :: names[i] == PointName(i)
  {
    seq(PROFILE_POINT_COUNT, i requires 0 <= i < PROFILE_POINT_COUNT => PointName(i))
  }

  /** The position of a name, told by its length and one character. */
  function Slot(s: string): nat {
    if |s| == 8 then 1
    else if |s| == 9 then (if s[0] == 's' then 2 else 21)
    else if |s| == 10 then (if s[0] == 'v' then 3 else 22)
    else if |s| == 14 then 31
    else if |s| == 15 then (if s[12] == 't' then 23 else if s[12] == 'e' then 29 else if s[12] == 'i' then 39 else if s[12] == 's' then 46 else 47)
    else if |s| == 16 then (if s[1] == 'y' then 0 else if s[1] == 't' then 16 else 24)
    else if |s| == 17 then 6
    else if |s| == 18 then (if s[12] == 'a' then 7 else if s[12] == 's' then 15 else if s[12] == 't' then 19 else if s[12] == 'n' then 28 else if s[12] == 'z' then 38 else if s[12] == 'u' then 40 else 53)
    else if |s| == 19 then 27
    else if |s| == 20 then (if s[0] == 's' then 13 else if s[0] == 'v' then 25 else if s[0] == 'm' then 30 else if s[0] == 'f' then 42 else 51)
    else if |s| == 21 then (if s[0] == 's' then 14 else 20)
    else if |s| == 22 then (if s[13] == 't' then 11 else if s[13] == 'k' then 17 else if s[13] == 'z' then 32 else if s[13] == 'a' then 41 else 50)
    else if |s| == 23 then (if s[12] == 'i' then 5 else if s[12] == 'r' then 18 else if s[12] == 'm' then 33 else if s[12] == 'l' then 43 else 49)
    else if |s| == 24 then (if s[16] == 'y' then 8 else if s[16] == 'e' then 9 else if s[16] == 'r' then 12 else 45)
    else if |s| == 26 then (if s[4] == 'l' then 4 else 26)
    else if |s| == 27 then (if s[0] == 's' then 10 else if s[0] == 'p' then 34 else 48)
    else if |s| == 28 then 52
    else if |s| == 29 then 35
    else if |s| == 30 then 44
    else if |s| == 34 then (if s[16] == 'r' then 36 else 37)
    else 54
  }

  /** Key characters, short, and no `c` where `syscall_` has one, except in the dispatcher's own name. */
  predicate Fits(s: string, i: nat) {
    KeyChars(s) && 4 <= |s| <= 200 && (s[3] != 'c' || (|s| > 8 && s[8] == 'd')) && Slot(s) == i
  }

  lemma FitsIsOk(s: string, i: nat)
    requires Fits(s, i)
    ensures NameOk(s) && Slot(s) == i
  {
    if |s| > 8 {
      assert s[..8][3] == s[3] && "syscall_"[3] == 'c';
      assert s[8..][0] == s[8];
    }
  }

  lemma Points0()
    ensures Fits("syscall_dispatch", 0)
    ensures Fits("sys_read", 1)
    ensures Fits("sys_write", 2)
    ensures Fits("vfs_lookup", 3)
  {
  }

  lemma Points4()
    ensures Fits("vfs_lookup_path_components", 4)
  {
  }

  lemma Points5()
    ensures Fits("vfs_lookup_visible_path", 5)
    ensures Fits("vfs_lookup_dentry", 6)
  {
  }

  lemma Points7()
    ensures Fits("vfs_lookup_backend", 7)
    ensures Fits("vfs_lookup_dentry_insert", 8)
  {
  }

  lemma Points9()
    ensures Fits("sys_newfstatat_read_path", 9)
  {
  }

  lemma Points10()
    ensures Fits("sys_newfstatat_access_check", 10)
  {
  }

  lemma Points11()
    ensures Fits("sys_newfstatat_resolve", 11)
  {
  }

  lemma Points12()
    ensures Fits("sys_newfstatat_writeback", 12)
    ensures Fits("stat_path_resolve_at", 13)
  {
  }

  lemma Points14()
    ensures Fits("stat_path_static_path", 14)
    ensures Fits("stat_path_vfs_stat", 15)
  {
  }

  lemma Points16()
    ensures Fits("stat_path_lookup", 16)
    ensures Fits("stat_path_backend_stat", 17)
  {
  }

  lemma Points18()
    ensures Fits("stat_path_dirty_overlay", 18)
    ensures Fits("ext4_stat_get_attr", 19)
  {
  }

  lemma Points20()
    ensures Fits("ext4_stat_inode_flags", 20)
    ensures Fits("ext4_read", 21)
    ensures Fits("page_fault", 22)
  {
  }

  lemma Points23()
    ensures Fits("scheduler_fetch", 23)
    ensures Fits("vfs_read_backend", 24)
  {
  }

  lemma Points25()
    ensures Fits("vfs_read_all_backend", 25)
  {
  }

  lemma Points26()
    ensures Fits("vfs_read_coalesced_backend", 26)
  {
  }

  lemma Points27()
    ensures Fits("vfs_read_cache_fill", 27)
    ensures Fits("vfs_seek_scan_read", 28)
  {
  }

  lemma Points29()
    ensures Fits("mmap_fault_read", 29)
    ensures Fits("mmap_page_cache_fill", 30)
  {
  }

  lemma Points31()
    ensures Fits("page_fault_cow", 31)
    ensures Fits("page_fault_lazy_framed", 32)
  {
  }

  lemma Points33()
    ensures Fits("page_fault_mmap_prepare", 33)
  {
  }

  lemma Points34()
    ensures Fits("page_fault_mmap_build_frame", 34)
  {
  }

  lemma Points35()
    ensures Fits("page_fault_mmap_install_frame", 35)
  {
  }

  lemma Points36()
    ensures Fits("page_fault_mmap_resolve_page_cache", 36)
  {
  }

  lemma Points37()
    ensures Fits("page_fault_mmap_install_page_cache", 37)
  {
  }

  lemma Points38()
    ensures Fits("frame_alloc_zeroed", 38)
    ensures Fits("frame_zero_fill", 39)
  {
  }

  lemma Points40()
    ensures Fits("frame_alloc_uninit", 40)
    ensures Fits("frame_alloc_page_table", 41)
  {
  }

  lemma Points42()
    ensures Fits("frame_alloc_map_area", 42)
    ensures Fits("frame_alloc_lazy_framed", 43)
  {
  }

  lemma Points44()
    ensures Fits("frame_alloc_materialize_framed", 44)
  {
  }

  lemma Points45()
    ensures Fits("frame_alloc_mmap_private", 45)
    ensures Fits("frame_alloc_shm", 46)
  {
  }

  lemma Points47()
    ensures Fits("frame_alloc_dma", 47)
    ensures Fits("frame_alloc_mmap_page_cache", 48)
  {
  }

  lemma Points49()
    ensures Fits("frame_alloc_shared_anon", 49)
  {
  }

  lemma Points50()
    ensures Fits("frame_alloc_read_cache", 50)
    ensures Fits("page_cache_load_wait", 51)
  {
  }

  lemma Points52()
    ensures Fits("mount_backend_contended_wait", 52)
  {
  }

  lemma Points53()
    ensures Fits("mount_backend_hold", 53)
  {
  }

  lemma PointFits(i: nat)
    requires i < PROFILE_POINT_COUNT
    ensures Fits(PointName(i), i)
  {
    hide Fits;
    Points0();
    Points4();
    Points5();
    Points7();
    Points9();
    Points10();
    Points11();
    Points12();
    Points14();
    Points16();
    Points18();
    Points20();
    Points23();
    Points25();
    Points26();
    Points27();
    Points29();
    Points31();
    Points33();
    Points34();
    Points35();
    Points36();
    Points37();
    Points38();
    Points40();
    Points42();
    Points44();
    Points45();
    Points47();
    Points49();
    Points50();
    Points52();
    Points53();
  }

  /** Every name is made of key characters, short, not `syscall_<digits>`, and used once. */
  lemma PointNamesFit()
    ensures DistinctNames(PointNames()) && forall i | 0 <= i < PROFILE_POINT_COUNT :: NameOk(PointNames()[i])
  {
    hide NameOk, Slot, PointName, Fits;
    var names := PointNames();
    forall i | 0 <= i < |names| ensures NameOk(names[i]) && Slot(names[i]) == i {
      PointFits(i);
      FitsIsOk(names[i], i);
    }
  }
}
