/**
 * The viewport's image cache: a GPU half holding textures and a CPU half
 * holding pixel data, each a least-recently-used cache keyed by file
 * path with a byte capacity. The cached value types come from other
 * files; the cache sees them only through their byte counts and their
 * default-constructed values, which are given to the constructor.
 */
module ImageCache {
  import opened LruCache

  class ImageCache<P, T> {
    /** The byte count of a CPU (pixel data) value and of a GPU (texture) value. */
    const cpuBytes: P -> nat
    const gpuBytes: T -> nat
    /** The default-constructed values that a missed find returns. */
    const cpuDefault: P
    const gpuDefault: T
    /** Bytes per megabyte, for the cache brief. */
    const bytesPerMegabyte: nat

    var gpuMinItemCount: nat
    var cpuMinItemCount: nat
    var gpu: Lru<T>
    var cpu: Lru<P>

    ghost predicate Valid()
      reads this
    {
      bytesPerMegabyte > 0 && LruCache.Valid(cpu, cpuBytes) && LruCache.Valid(gpu, gpuBytes)
    }

    /** An empty cache: at least one item each, 200 MB of GPU and 1000 MB of CPU capacity, nothing used. */
    constructor (cpuBytes: P -> nat, gpuBytes: T -> nat, cpuDefault: P, gpuDefault: T, bytesPerMegabyte: nat)
      requires bytesPerMegabyte > 0
      ensures Valid()
      ensures this.cpuBytes == cpuBytes && this.gpuBytes == gpuBytes
      ensures this.cpuDefault == cpuDefault && this.gpuDefault == gpuDefault
      ensures this.bytesPerMegabyte == bytesPerMegabyte
      ensures gpuMinItemCount == 1 && cpuMinItemCount == 1
      ensures gpu == Lru([], map[], 0, 200 * bytesPerMegabyte)
      ensures cpu == Lru([], map[], 0, 1000 * bytesPerMegabyte)
    {
      this.cpuBytes := cpuBytes;
      this.gpuBytes := gpuBytes;
      this.cpuDefault := cpuDefault;
      this.gpuDefault := gpuDefault;
      this.bytesPerMegabyte := bytesPerMegabyte;
      gpuMinItemCount := 1;
      cpuMinItemCount := 1;
      gpu := Lru([], map[], 0, 200 * bytesPerMegabyte);
      cpu := Lru([], map[], 0, 1000 * bytesPerMegabyte);
    }

    function GetGpuMinItemCount(): nat reads this { gpuMinItemCount }
    function GetCpuMinItemCount(): nat reads this { cpuMinItemCount }
    function GetGpuCapacityBytes(): nat reads this { gpu.capacity }
    function GetCpuCapacityBytes(): nat reads this { cpu.capacity }
    function GetGpuUsedBytes(): nat reads this { gpu.used }
    function GetCpuUsedBytes(): nat reads this { cpu.used }

    /** Stores the minimum item count; nothing is evicted. */
    method SetGpuMinItemCount(value: nat)
      modifies this`gpuMinItemCount
      ensures gpuMinItemCount == value
    {
      gpuMinItemCount := value;
    }

    method SetCpuMinItemCount(value: nat)
      modifies this`cpuMinItemCount
      ensures cpuMinItemCount == value
    {
      cpuMinItemCount := value;
    }

    /** The numbers of `generate_cache_brief_text`: GPU then CPU. */
    function CacheBriefs(): (briefs: (Brief, Brief))
      requires Valid()
      reads this
      ensures briefs.0.count == |gpu.entries| && briefs.1.count == |cpu.entries|
      ensures cpu.capacity == 0 ==> briefs.1.usedPercent == 0.0
      ensures gpu.capacity == 0 ==> briefs.0.usedPercent == 0.0
    {
      (CacheBrief(|gpu.entries|, gpu.capacity, gpu.used, bytesPerMegabyte),
       CacheBrief(|cpu.entries|, cpu.capacity, cpu.used, bytesPerMegabyte))
    }

    /** `cpu_find`: see `LruCache.Find`. */
    method CpuFind(key: Key) returns (value: P)
      requires Valid()
      modifies this`cpu
      ensures Valid() && (value, cpu) == Find(old(cpu), key, cpuDefault)
    {
      FindHitOrMiss(cpu, key, cpuDefault, cpuBytes);
      var found := key in cpu.entries;
      if found {
        value := cpu.entries[key];
        cpu := Touch(cpu, key);
        return;
      }
      value := cpuDefault;
    }

    /** `gpu_find`: see `LruCache.Find`. */
    method GpuFind(key: Key) returns (value: T)
      requires Valid()
      modifies this`gpu
      ensures Valid() && (value, gpu) == Find(old(gpu), key, gpuDefault)
    {
      FindHitOrMiss(gpu, key, gpuDefault, gpuBytes);
      var found := key in gpu.entries;
      if found {
        value := gpu.entries[key];
        gpu := Touch(gpu, key);
        return;
      }
      value := gpuDefault;
    }

    /** `cpu_evict_one`: see `LruCache.EvictOne`. */
    method CpuEvictOne() returns (ok: bool)
      requires Valid()
      modifies this`cpu
      ensures Valid() && (cpu, ok) == EvictOne(old(cpu), cpuBytes)
    {
      EvictOneValid(cpu, cpuBytes);
      if |cpu.keys| == 0 {
        return false;
      }
      var lruKey := cpu.keys[0];
      assert lruKey in cpu.keys;
      var used := cpu.used - cpuBytes(cpu.entries[lruKey]);
      cpu := Lru(cpu.keys[1..], cpu.entries - {lruKey}, used, cpu.capacity);
      ok := true;
    }

    /** `gpu_evict_one`, without the texture release: see `LruCache.EvictOne`. */
    method GpuEvictOne() returns (ok: bool)
      requires Valid()
      modifies this`gpu
      ensures Valid() && (gpu, ok) == EvictOne(old(gpu), gpuBytes)
    {
      EvictOneValid(gpu, gpuBytes);
      if |gpu.keys| == 0 {
        return false;
      }
      var lruKey := gpu.keys[0];
      assert lruKey in gpu.keys;
      var used := gpu.used - gpuBytes(gpu.entries[lruKey]);
      gpu := Lru(gpu.keys[1..], gpu.entries - {lruKey}, used, gpu.capacity);
      ok := true;
    }

    /** `cpu_evict_enough_for_new_entry`: see `LruCache.EvictEnough`. */
    method CpuEvictEnoughForNewEntry(newMemoryChunkSize: nat) returns (ok: bool)
      requires Valid()
      modifies this`cpu
      ensures Valid() && (cpu, ok) == EvictEnough(old(cpu), newMemoryChunkSize, cpuBytes)
    {
      if |cpu.keys| == 0 {
        return false;
      }
      var newUsedBytes := cpu.used + newMemoryChunkSize;
      while newUsedBytes > cpu.capacity
        invariant Valid() && newUsedBytes == cpu.used + newMemoryChunkSize
        invariant EvictWhile(cpu, newMemoryChunkSize, cpuBytes) == EvictWhile(old(cpu), newMemoryChunkSize, cpuBytes)
        decreases |cpu.keys|
      {
        var evicted := CpuEvictOne();
        if !evicted {
          break;
        }
        newUsedBytes := cpu.used + newMemoryChunkSize;
      }
      ok := true;
    }

    /** `gpu_evict_enough_for_new_entry`: see `LruCache.EvictEnough`. */
    method GpuEvictEnoughForNewEntry(newMemoryChunkSize: nat) returns (ok: bool)
      requires Valid()
      modifies this`gpu
      ensures Valid() && (gpu, ok) == EvictEnough(old(gpu), newMemoryChunkSize, gpuBytes)
    {
      if |gpu.keys| == 0 {
        return false;
      }
      var newUsedBytes := gpu.used + newMemoryChunkSize;
      while newUsedBytes > gpu.capacity
        invariant Valid() && newUsedBytes == gpu.used + newMemoryChunkSize
        invariant EvictWhile(gpu, newMemoryChunkSize, gpuBytes) == EvictWhile(old(gpu), newMemoryChunkSize, gpuBytes)
        decreases |gpu.keys|
      {
        var evicted := GpuEvictOne();
        if !evicted {
          break;
        }
        newUsedBytes := gpu.used + newMemoryChunkSize;
      }
      ok := true;
    }

    /** `gpu_erase`, without the texture release: see `LruCache.Erase`. */
    method GpuErase(key: Key) returns (found: bool)
      requires Valid()
      modifies this`gpu
      ensures Valid() && (gpu, found) == Erase(old(gpu), key, gpuBytes)
    {
      EraseValid(gpu, key, gpuBytes);
      found := key in gpu.entries;
      if found {
        var used := gpu.used - gpuBytes(gpu.entries[key]);
        gpu := Lru(Remove(gpu.keys, key), gpu.entries - {key}, used, gpu.capacity);
      }
    }

    /**
     * `gpu_insert`: `pixelBytes` is the pixel data's byte count, `texture`
     * what the texture allocation produced, and `valid` the texture's
     * validity test; see `LruCache.InsertTexture`.
     */
    method GpuInsert(key: Key, pixelBytes: nat, texture: T, valid: T -> bool) returns (textureData: T)
      requires Valid()
      modifies this`gpu
      ensures Valid() && (textureData, gpu) == InsertTexture(old(gpu), key, pixelBytes, texture, valid, gpuDefault, gpuBytes)
    {
      InsertTextureValid(gpu, key, pixelBytes, texture, valid, gpuDefault, gpuBytes);
      var found := key in gpu.entries;
      if !found {
        var _ := GpuEvictEnoughForNewEntry(pixelBytes);
        if !valid(texture) {
          return gpuDefault;
        }
        gpu := Append(gpu, key, texture, gpuBytes);
        textureData := texture;
      } else {
        textureData := gpu.entries[key];
        if !valid(textureData) {
          return gpuDefault;
        }
        gpu := Touch(gpu, key);
      }
    }

    /** `cpu_erase`: see `LruCache.Erase`. */
    method CpuErase(key: Key) returns (found: bool)
      requires Valid()
      modifies this`cpu
      ensures Valid() && (cpu, found) == Erase(old(cpu), key, cpuBytes)
    {
      EraseValid(cpu, key, cpuBytes);
      found := key in cpu.entries;
      if found {
        var used := cpu.used - cpuBytes(cpu.entries[key]);
        cpu := Lru(Remove(cpu.keys, key), cpu.entries - {key}, used, cpu.capacity);
      }
    }

    /** `cpu_insert`: see `LruCache.Insert`. */
    method CpuInsert(key: Key, imagePixelData: P) returns (ok: bool)
      requires Valid()
      modifies this`cpu
      ensures Valid() && (cpu, ok) == Insert(old(cpu), key, imagePixelData, cpuBytes)
    {
      InsertValid(cpu, key, imagePixelData, cpuBytes);
      var found := key in cpu.entries;
      if found {
        var _ := CpuErase(key);
      }
      var imageDataSize := cpuBytes(imagePixelData);
      var _ := CpuEvictEnoughForNewEntry(imageDataSize);
      cpu := Append(cpu, key, imagePixelData, cpuBytes);
      ok := true;
    }

    /**
     * `set_cpu_capacity_bytes`, with its eviction loop guarded as its
     * comment intends (the source guards it with an empty key list):
     * see `LruCache.SetCapacity`.
     */
    method SetCpuCapacityBytes(value: nat)
      requires Valid()
      modifies this`cpu
      ensures Valid() && cpu == SetCapacity(old(cpu), value, cpuBytes)
    {
      cpu := cpu.(capacity := value);
      if cpu.used > cpu.capacity && |cpu.keys| > 0 {
        while cpu.used > cpu.capacity
          invariant Valid()
          invariant EvictWhile(cpu, 0, cpuBytes) == EvictWhile(old(cpu).(capacity := value), 0, cpuBytes)
          decreases |cpu.keys|
        {
          var ok := CpuEvictOne();
          if !ok {
            break;
          }
        }
      }
    }

    /** `set_gpu_capacity_bytes`, guarded as intended like `SetCpuCapacityBytes`. */
    method SetGpuCapacityBytes(value: nat)
      requires Valid()
      modifies this`gpu
      ensures Valid() && gpu == SetCapacity(old(gpu), value, gpuBytes)
    {
      gpu := gpu.(capacity := value);
      if gpu.used > gpu.capacity && |gpu.keys| > 0 {
        while gpu.used > gpu.capacity
          invariant Valid()
          invariant EvictWhile(gpu, 0, gpuBytes) == EvictWhile(old(gpu).(capacity := value), 0, gpuBytes)
          decreases |gpu.keys|
        {
          var ok := GpuEvictOne();
          if !ok {
            break;
          }
        }
      }
    }
  }
}
